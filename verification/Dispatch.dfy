/** Live sessions as a value: seats, role caps, and what a completed session may hand over to. */
module Fleet {
  import opened Text

  datatype Role = Implementer | Designer | Repairer | Reviewer

  datatype Status = Working | Running | Repairing | Failed

  datatype Outcome = Completed | Limited | Ended(status: Status)

  datatype Session = Session(handle: string, repo: string, task: string, role: Role, seat: string,
                             decomposition: bool, fallbackAttempted: bool, status: Status)

  /** Configured seat names, distinct only within a role. */
  datatype Config = Config(fleet: seq<string>, designers: seq<string>, repairers: seq<string>, reviewers: seq<string>) {
    function Seats(role: Role): seq<string> {
      match role
      case Implementer => fleet
      case Designer => designers
      case Repairer => repairers
      case Reviewer => reviewers
    }

    function Cap(role: Role): nat {
      match role
      case Implementer => |fleet|
      case Designer => |designers|
      case _ => 1
    }
  }

  type Live = map<string, Session>

  predicate SeatTaken(m: Live, seat: string) {
    exists h :: h in m && m[h].seat == seat
  }

  function Holding(m: Live, role: Role): set<string> {
    set h | h in m && m[h].role == role
  }

  ghost predicate Keyed(m: Live) {
    forall h | h in m :: m[h].handle == h
  }

  ghost predicate SeatsDistinct(m: Live) {
    forall h, k | h in m && k in m && h != k :: m[h].seat != m[k].seat
  }

  ghost predicate Seated(m: Live) {
    forall h | h in m :: m[h].seat != ""
  }

  ghost predicate WithinCaps(c: Config, m: Live) {
    forall role: Role :: |Holding(m, role)| <= c.Cap(role)
  }

  ghost predicate Good(c: Config, m: Live) {
    Keyed(m) && Seated(m) && SeatsDistinct(m) && WithinCaps(c, m)
  }

  lemma HoldingAdd(m: Live, s: Session, role: Role)
    requires s.handle !in m
    ensures Holding(m[s.handle := s], role) == Holding(m, role) + if s.role == role then {s.handle} else {}
    ensures |Holding(m[s.handle := s], role)| == |Holding(m, role)| + if s.role == role then 1 else 0
  {
  }

  lemma HoldingRemove(m: Live, h: string, role: Role)
    requires h in m
    ensures Holding(m - {h}, role) == Holding(m, role) - {h}
    ensures |Holding(m - {h}, role)| == |Holding(m, role)| - if m[h].role == role then 1 else 0
  {
    assert h in Holding(m, role) <==> m[h].role == role;
  }

  /** A session added on a seat keeps seats distinct exactly when the seat is free. */
  lemma AddKeepsSeatsExactlyWhenFree(m: Live, s: Session)
    requires SeatsDistinct(m) && s.handle !in m
    ensures SeatsDistinct(m[s.handle := s]) <==> !SeatTaken(m, s.seat)
  {
    var next := m[s.handle := s];
    if SeatTaken(m, s.seat) {
      var h :| h in m && m[h].seat == s.seat;
      assert next[h].seat == next[s.handle].seat && h != s.handle;
    }
  }

  /** It keeps the caps exactly when its role has room. */
  lemma AddKeepsCapsExactlyWithRoom(c: Config, m: Live, s: Session)
    requires WithinCaps(c, m) && s.handle !in m
    ensures WithinCaps(c, m[s.handle := s]) <==> |Holding(m, s.role)| < c.Cap(s.role)
  {
    forall role: Role
      ensures |Holding(m[s.handle := s], role)| == |Holding(m, role)| + if s.role == role then 1 else 0
    {
      HoldingAdd(m, s, role);
    }
  }

  // ------------------------------------------------------------ ranks

  /** How far down the hand-over chain a session stands. */
  function Rank(s: Session): nat {
    match s.role
    case Implementer => if s.fallbackAttempted then 4 else 5
    case Designer => if s.fallbackAttempted then 4 else 5
    case Repairer => if s.fallbackAttempted then 2 else 3
    case Reviewer => if s.fallbackAttempted then 0 else 1
  }

  function Ranked(m: Live, rank: nat): set<string> {
    set h | h in m && Rank(m[h]) == rank
  }

  /** The sum of rank plus one over all live sessions. */
  function Weight(m: Live): nat {
    |Ranked(m, 0)| + 2 * |Ranked(m, 1)| + 3 * |Ranked(m, 2)|
    + 4 * |Ranked(m, 3)| + 5 * |Ranked(m, 4)| + 6 * |Ranked(m, 5)|
  }

  lemma RankedAdd(m: Live, s: Session, rank: nat)
    requires s.handle !in m
    ensures |Ranked(m[s.handle := s], rank)| == |Ranked(m, rank)| + if Rank(s) == rank then 1 else 0
  {
    assert Ranked(m[s.handle := s], rank) == Ranked(m, rank) + if Rank(s) == rank then {s.handle} else {};
  }

  lemma RankedRemove(m: Live, h: string, rank: nat)
    requires h in m
    ensures |Ranked(m - {h}, rank)| == |Ranked(m, rank)| - if Rank(m[h]) == rank then 1 else 0
  {
    assert Ranked(m - {h}, rank) == Ranked(m, rank) - {h};
    assert h in Ranked(m, rank) <==> Rank(m[h]) == rank;
  }

  lemma WeightAdd(m: Live, s: Session)
    requires s.handle !in m
    ensures Weight(m[s.handle := s]) == Weight(m) + Rank(s) + 1
  {
    RankedAdd(m, s, 0);
    RankedAdd(m, s, 1);
    RankedAdd(m, s, 2);
    RankedAdd(m, s, 3);
    RankedAdd(m, s, 4);
    RankedAdd(m, s, 5);
  }

  lemma WeightRemove(m: Live, h: string)
    requires h in m
    ensures Weight(m - {h}) == Weight(m) - Rank(m[h]) - 1
  {
    RankedRemove(m, h, 0);
    RankedRemove(m, h, 1);
    RankedRemove(m, h, 2);
    RankedRemove(m, h, 3);
    RankedRemove(m, h, 4);
    RankedRemove(m, h, 5);
  }

  // ------------------------------------------------------------ runs

  /** What a session may hand over to: its own fallback on its seat, a repairer on its seat for
      the same task, or a reviewer. */
  predicate Follows(s: Session, t: Session) {
    || (t.role == s.role && t.seat == s.seat && t.repo == s.repo && t.task == s.task
        && !s.fallbackAttempted && t.fallbackAttempted)
    || (s.role in {Implementer, Designer} && t.role == Repairer
        && t.seat == s.seat && t.repo == s.repo && t.task == s.task
        && !t.fallbackAttempted)
    || (s.role in {Implementer, Repairer} && t.role == Reviewer && t.repo == s.repo && !t.fallbackAttempted)
  }

  lemma FollowersRankLower(s: Session, t: Session)
    requires Follows(s, t)
    ensures Rank(t) < Rank(s)
  {
  }

  datatype Action =
    | Admit(session: Session)
    | Complete(handle: string, successor: Option<Session>)
    | Amend(handle: string, session: Session)
    | Forget(handle: string)

  /** Each action is one whole handler; handlers are atomic. */
  predicate Allowed(c: Config, m: Live, a: Action) {
    match a
    case Admit(s) => s.handle !in m && |Holding(m, s.role)| < c.Cap(s.role) && s.seat != "" && !SeatTaken(m, s.seat)
    case Complete(h, successor) =>
      h in m
      && (successor.Some? ==>
            var t, rest := successor.value, m - {h};
            t.handle !in rest && Follows(m[h], t)
            && (t.role == m[h].role || |Holding(rest, t.role)| < c.Cap(t.role))
            && (t.seat == m[h].seat || (t.seat != "" && !SeatTaken(rest, t.seat))))
    case Amend(h, s) =>
      h in m && s.handle == h && s.seat == m[h].seat && s.role == m[h].role
      && s.fallbackAttempted == m[h].fallbackAttempted
    case Forget(h) => true
  }

  function With(m: Live, s: Option<Session>): Live {
    if s.Some? then m[s.value.handle := s.value] else m
  }

  function Next(m: Live, a: Action): Live {
    match a
    case Admit(s) => m[s.handle := s]
    case Complete(h, successor) => With(m - {h}, successor)
    case Amend(h, s) => m[h := s]
    case Forget(h) => m - {h}
  }

  function Run(actions: seq<Action>): Live {
    if actions == [] then map[] else Next(Run(actions[..|actions| - 1]), actions[|actions| - 1])
  }

  ghost predicate RunAllowed(c: Config, actions: seq<Action>) {
    actions == []
    || (RunAllowed(c, actions[..|actions| - 1]) && Allowed(c, Run(actions[..|actions| - 1]), actions[|actions| - 1]))
  }

  lemma RemovedIsGood(c: Config, m: Live, h: string)
    requires Good(c, m) && h in m
    ensures Good(c, m - {h}) && !SeatTaken(m - {h}, m[h].seat)
    ensures |Holding(m - {h}, m[h].role)| < c.Cap(m[h].role)
  {
    forall role: Role
      ensures |Holding(m - {h}, role)| == |Holding(m, role)| - if m[h].role == role then 1 else 0
    {
      HoldingRemove(m, h, role);
    }
    assert |Holding(m, m[h].role)| <= c.Cap(m[h].role);
  }

  lemma AddedIsGood(c: Config, m: Live, s: Session)
    requires Good(c, m) && s.handle !in m && s.seat != "" && !SeatTaken(m, s.seat)
    requires |Holding(m, s.role)| < c.Cap(s.role)
    ensures Good(c, m[s.handle := s])
  {
    AddKeepsSeatsExactlyWhenFree(m, s);
    AddKeepsCapsExactlyWithRoom(c, m, s);
  }

  lemma AmendedIsGood(c: Config, m: Live, h: string, s: Session)
    requires Good(c, m) && h in m && s.handle == h && s.seat == m[h].seat && s.role == m[h].role
    ensures Good(c, m[h := s])
  {
    forall role: Role
      ensures Holding(m[h := s], role) == Holding(m, role)
    {
    }
  }

  lemma NextIsGood(c: Config, m: Live, a: Action)
    requires Good(c, m) && Allowed(c, m, a)
    ensures Good(c, Next(m, a))
  {
    match a
    case Admit(s) => AddedIsGood(c, m, s);
    case Complete(h, successor) =>
      RemovedIsGood(c, m, h);
      if successor.Some? { AddedIsGood(c, m - {h}, successor.value); }
    case Amend(h, s) => AmendedIsGood(c, m, h, s);
    case Forget(h) =>
      if h in m { RemovedIsGood(c, m, h); } else { assert m - {h} == m; }
  }

  /** In every run of handlers live sessions sit on pairwise distinct seats and no role exceeds
      its cap, although fallback skips the cap check and repair takes the conflicting seat. */
  lemma {:induction false} EveryRunIsGood(c: Config, actions: seq<Action>)
    requires RunAllowed(c, actions)
    ensures Good(c, Run(actions))
  {
    if actions != [] {
      EveryRunIsGood(c, actions[..|actions| - 1]);
      NextIsGood(c, Run(actions[..|actions| - 1]), actions[|actions| - 1]);
    }
  }

  /** Split into its steps, a completion lets another admission take the freed seat before the
      fallback reuses it: two sessions on one seat. */
  lemma FallbackNeedsAtomicHandlers(c: Config, s: Session, other: Session, retry: Session)
    requires !s.fallbackAttempted && other.handle != retry.handle && c.Cap(s.role) >= 1
    requires s.seat != "" && other.seat == s.seat && other.role == s.role && !other.fallbackAttempted
    requires retry == s.(handle := retry.handle, fallbackAttempted := true)
    ensures var running := map[][s.handle := s]; var freed := Next(running, Forget(s.handle));
            Good(c, running) && Allowed(c, freed, Admit(other)) && Follows(s, retry)
            && !SeatsDistinct(freed[other.handle := other][retry.handle := retry])
  {
    var running: Live := map[][s.handle := s];
    assert Holding(map[], s.role) == {};
    assert WithinCaps(c, map[]) by {
      forall role: Role
        ensures Holding(map[], role) == {}
      {
      }
    }
    AddedIsGood(c, map[], s);
    var freed := Next(running, Forget(s.handle));
    assert freed == map[];
    var both := freed[other.handle := other][retry.handle := retry];
    assert both[other.handle].seat == both[retry.handle].seat;
  }

  // ------------------------------------------------------------ termination of cascades

  /** A completion of a live session lowers the weight, whatever it hands over to. */
  lemma CompletionLowersWeight(c: Config, m: Live, h: string, successor: Option<Session>)
    requires Allowed(c, m, Complete(h, successor))
    ensures Weight(Next(m, Complete(h, successor))) < Weight(m)
  {
    WeightRemove(m, h);
    if successor.Some? {
      FollowersRankLower(m[h], successor.value);
      WeightAdd(m - {h}, successor.value);
    }
  }

  /** A run of completions and nothing else from m. */
  ghost predicate Cascade(c: Config, m: Live, actions: seq<Action>)
    decreases |actions|
  {
    actions == []
    || (actions[0].Complete? && Allowed(c, m, actions[0]) && Cascade(c, Next(m, actions[0]), actions[1..]))
  }

  /** Without new admissions completions come to an end: no cascade is longer than the weight. */
  lemma {:induction false} CascadesEnd(c: Config, m: Live, actions: seq<Action>)
    requires Cascade(c, m, actions)
    ensures |actions| <= Weight(m)
    decreases |actions|
  {
    if actions != [] {
      CompletionLowersWeight(c, m, actions[0].handle, actions[0].successor);
      CascadesEnd(c, Next(m, actions[0]), actions[1..]);
    }
  }
}

/** The dispatcher of internal/dispatch: admission, completion routing, fallback, repair, review
    hand-over and drain. Foreign calls answer through parameters. */
module Dispatch {
  import opened Text
  import opened Fleet

  datatype LandResult = LandOK | LandConflict | LandGateFailed | LandFailed

  /** Starting the agent: preparing its plan and working directory, and the handle of the run. */
  datatype Start = Start(prepared: bool, handle: string) {
    predicate Ok() {
      prepared && handle != ""
    }
  }

  /** What an admission is told: is the repository valid, is the task for humans only (None: the
      query failed), is the seat ready, was the task claimed, and how the run started. */
  datatype Admission = Admission(valid: bool, humanOnly: Option<bool>, ready: bool, claimed: bool, start: Start)

  /** What the routing of a completed session is told; None and false stand for failed calls. */
  datatype Answers = Answers(diff: bool, land: Option<LandResult>, landed: bool, taskLanded: bool, closed: bool,
                             dueEpic: Option<string>, reviewPlan: bool, limited: bool, fallbackModel: bool,
                             retry: Start, next: Admission)

  type Bead = (string, string)

  function BeadOf(s: Session): Bead {
    (s.repo, s.task)
  }

  // ------------------------------------------------------------ admission as a value

  /** The first configured seat nobody sits on, or no seat. */
  function FirstFree(m: Live, seats: seq<string>): string
    decreases |seats|
  {
    if seats == [] then "" else if SeatTaken(m, seats[0]) then FirstFree(m, seats[1..]) else seats[0]
  }

  lemma {:induction false} FirstFreeIsFree(m: Live, seats: seq<string>)
    ensures FirstFree(m, seats) != "" ==> FirstFree(m, seats) in seats && !SeatTaken(m, FirstFree(m, seats))
    ensures (forall i | 0 <= i < |seats| :: seats[i] != "")
            ==> (FirstFree(m, seats) == "" <==> forall i | 0 <= i < |seats| :: SeatTaken(m, seats[i]))
    decreases |seats|
  {
    if seats != [] {
      FirstFreeIsFree(m, seats[1..]);
      assert forall i | 0 < i < |seats| :: seats[i] == seats[1..][i - 1];
    }
  }

  /** The first seat of the list on which nobody sits has a name. */
  ghost predicate SeatOpen(m: Live, seats: seq<string>) {
    exists i :: 0 <= i < |seats| && seats[i] != "" && FirstOpen(m, seats, i)
  }

  ghost predicate FirstOpen(m: Live, seats: seq<string>, i: nat)
    requires i < |seats|
  {
    (forall h | h in m :: m[h].seat != seats[i]) && forall j | 0 <= j < i :: exists h :: h in m && m[h].seat == seats[j]
  }

  /** seat is that seat. */
  ghost predicate OnFirstOpen(m: Live, seats: seq<string>, seat: string) {
    exists i :: 0 <= i < |seats| && seats[i] == seat && FirstOpen(m, seats, i)
  }

  lemma FirstFreeSeat(m: Live, seats: seq<string>)
    ensures FirstFree(m, seats) != "" ==> OnFirstOpen(m, seats, FirstFree(m, seats))
  {
    FirstFreeExactly(m, seats);
    if i :| 0 <= i < |seats| && seats[i] != "" && FirstOpen(m, seats, i) { FirstFreeAt(m, seats, i); }
  }

  lemma {:induction false} FirstFreeAt(m: Live, seats: seq<string>, i: nat)
    requires i < |seats| && FirstOpen(m, seats, i)
    ensures FirstFree(m, seats) == seats[i]
    decreases |seats|
  {
    if i > 0 {
      assert SeatTaken(m, seats[0]);
      assert FirstOpen(m, seats[1..], i - 1) by {
        assert forall j | 0 <= j < i - 1 :: seats[1..][j] == seats[j + 1];
      }
      FirstFreeAt(m, seats[1..], i - 1);
    }
  }

  lemma {:induction false} FirstFreeExactly(m: Live, seats: seq<string>)
    ensures FirstFree(m, seats) != "" <==> SeatOpen(m, seats)
    decreases |seats|
  {
    if seats != [] {
      if SeatTaken(m, seats[0]) {
        FirstFreeExactly(m, seats[1..]);
        if SeatOpen(m, seats[1..]) {
          var i :| 0 <= i < |seats| - 1 && seats[1..][i] != "" && FirstOpen(m, seats[1..], i);
          assert FirstOpen(m, seats, i + 1) by {
            assert forall j | 0 < j < i + 1 :: seats[j] == seats[1..][j - 1];
          }
        }
        if i :| 0 <= i < |seats| && seats[i] != "" && FirstOpen(m, seats, i) { FirstFreeAt(m, seats, i); }
      } else {
        assert FirstOpen(m, seats, 0);
        if i :| 0 <= i < |seats| && seats[i] != "" && FirstOpen(m, seats, i) { FirstFreeAt(m, seats, i); }
      }
    }
  }

  function SeatFor(c: Config, m: Live, role: Role, seat: string): string {
    if seat == "" then FirstFree(m, c.Seats(role)) else seat
  }

  /** The admission got as far as the claim. */
  predicate Reaches(c: Config, m: Live, role: Role, seat: string, a: Admission) {
    a.valid && a.humanOnly == Some(false) && |Holding(m, role)| < c.Cap(role)
    && SeatFor(c, m, role, seat) != "" && a.ready
  }

  predicate Admits(c: Config, m: Live, role: Role, seat: string, a: Admission) {
    Reaches(c, m, role, seat, a) && (role == Reviewer || a.claimed) && a.start.Ok()
  }

  function Admitted(c: Config, m: Live, repo: string, task: string, role: Role, seat: string, a: Admission): Session {
    Session(a.start.handle, repo, task, role, SeatFor(c, m, role, seat), false, false,
            if role == Repairer then Repairing else Working)
  }

  /** A task is started exactly when its repository is valid, it is not for humans, its role is below
      its cap, there is a seat and it is ready, it was claimed (an epic need not be), and the run
      started. */
  lemma AdmissionExactly(c: Config, m: Live, role: Role, seat: string, a: Admission)
    ensures Admits(c, m, role, seat, a) <==>
              && a.valid && a.humanOnly == Some(false) && Room(c, m, role)
              && (seat != "" || SeatOpen(m, SeatsOf(c, role))) && a.ready
              && (role == Reviewer || a.claimed) && a.start.prepared && a.start.handle != ""
  {
    FirstFreeExactly(m, c.Seats(role));
    NoneHolding(m, role);
  }

  /** One repairer and one reviewer at a time, and an implementer or designer per seat of theirs. */
  ghost predicate Room(c: Config, m: Live, role: Role) {
    match role
    case Implementer => |set h | h in m && m[h].role == Implementer| < |c.fleet|
    case Designer => |set h | h in m && m[h].role == Designer| < |c.designers|
    case _ => forall h | h in m :: m[h].role != role
  }

  ghost function SeatsOf(c: Config, role: Role): seq<string> {
    match role
    case Implementer => c.fleet
    case Designer => c.designers
    case Repairer => c.repairers
    case Reviewer => c.reviewers
  }

  lemma NoneHolding(m: Live, role: Role)
    ensures |Holding(m, role)| < 1 <==> forall h | h in m :: m[h].role != role
  {
    if h :| h in m && m[h].role == role { assert h in Holding(m, role); } else { assert Holding(m, role) == {}; }
  }

  // ------------------------------------------------------------ completion as a value

  predicate FallsBack(s: Session, outcome: Outcome, a: Answers) {
    outcome != Completed && !s.fallbackAttempted && (outcome == Limited || a.limited) && a.fallbackModel && a.retry.Ok()
  }

  function FallbackOf(s: Session, a: Answers): Session {
    Session(a.retry.handle, s.repo, s.task, s.role, s.seat, false, true, Working)
  }

  predicate LandsClean(s: Session, outcome: Outcome, a: Answers) {
    outcome == Completed && s.role != Reviewer && a.diff && a.land == Some(LandOK)
  }

  predicate Conflicts(s: Session, outcome: Outcome, a: Answers) {
    outcome == Completed && s.role != Reviewer && a.diff && a.land == Some(LandConflict)
  }

  /** The task's branch and provenance are in integration and its bead is closed. */
  predicate Closes(s: Session, outcome: Outcome, a: Answers) {
    LandsClean(s, outcome, a) && s.role != Designer && a.landed && a.taskLanded && a.closed
  }

  predicate Repairs(c: Config, rest: Live, s: Session, outcome: Outcome, a: Answers) {
    Conflicts(s, outcome, a) && s.role != Repairer && Admits(c, rest, Repairer, s.seat, a.next)
  }

  predicate Reviews(c: Config, rest: Live, s: Session, outcome: Outcome, a: Answers) {
    Closes(s, outcome, a) && a.dueEpic.Some? && a.dueEpic.value != "" && a.reviewPlan
    && Admits(c, rest, Reviewer, "", a.next)
  }

  /** Whom a completed session hands over to; rest is everybody else. */
  function Successor(c: Config, rest: Live, s: Session, outcome: Outcome, a: Answers): Option<Session> {
    if FallsBack(s, outcome, a) then Some(FallbackOf(s, a))
    else if Repairs(c, rest, s, outcome, a) then Some(Admitted(c, rest, s.repo, s.task, Repairer, s.seat, a.next))
    else if Reviews(c, rest, s, outcome, a) then Some(Admitted(c, rest, s.repo, a.dueEpic.value, Reviewer, "", a.next))
    else None
  }

  /** A session is retried on its seat exactly when it did not complete, met a usage limit for the
      first time, and a fallback model could be started. */
  lemma FallbackExactly(c: Config, rest: Live, s: Session, outcome: Outcome, a: Answers)
    ensures var t := Successor(c, rest, s, outcome, a);
            (t.Some? && t.value.fallbackAttempted) <==>
              outcome != Completed && !s.fallbackAttempted && (outcome == Limited || a.limited) && a.fallbackModel
              && a.retry.prepared && a.retry.handle != ""
    ensures var t := Successor(c, rest, s, outcome, a);
            t.Some? && t.value.fallbackAttempted ==>
              t.value == Session(a.retry.handle, s.repo, s.task, s.role, s.seat, false, true, Working)
  {
  }

  /** A repairer takes over exactly when the work of an implementer or designer conflicted and nobody
      repairs, on the seat and the task of that session; a session without a seat gives it the first open
      repair seat. */
  lemma RepairExactly(c: Config, rest: Live, s: Session, outcome: Outcome, a: Answers)
    ensures var t := Successor(c, rest, s, outcome, a);
            (t.Some? && !t.value.fallbackAttempted && t.value.role == Repairer) <==>
              outcome == Completed && s.role in {Implementer, Designer} && a.diff && a.land == Some(LandConflict)
              && a.next.valid && a.next.humanOnly == Some(false) && (forall h | h in rest :: rest[h].role != Repairer)
              && (s.seat != "" || SeatOpen(rest, c.repairers))
              && a.next.ready && a.next.claimed && a.next.start.prepared && a.next.start.handle != ""
    ensures var t := Successor(c, rest, s, outcome, a);
            t.Some? && !t.value.fallbackAttempted && t.value.role == Repairer ==>
              t.value == Session(a.next.start.handle, s.repo, s.task, Repairer, t.value.seat, false, false, Repairing)
              && if s.seat != "" then t.value.seat == s.seat else OnFirstOpen(rest, c.repairers, t.value.seat)
  {
    AdmissionExactly(c, rest, Repairer, s.seat, a.next);
    FirstFreeSeat(rest, c.repairers);
  }

  /** A due review is handed over: a reviewer starts on the epic that the gate named exactly when the
      work of an implementer or repairer landed and its task was closed, the gate had a plan for the
      epic, nobody reviews, and a review seat is open. */
  lemma ReviewExactly(c: Config, rest: Live, s: Session, outcome: Outcome, a: Answers)
    ensures var t := Successor(c, rest, s, outcome, a);
            (t.Some? && !t.value.fallbackAttempted && t.value.role == Reviewer) <==>
              outcome == Completed && s.role in {Implementer, Repairer} && a.diff && a.land == Some(LandOK)
              && a.landed && a.taskLanded && a.closed
              && a.dueEpic.Some? && a.dueEpic.value != "" && a.reviewPlan
              && a.next.valid && a.next.humanOnly == Some(false) && (forall h | h in rest :: rest[h].role != Reviewer)
              && SeatOpen(rest, c.reviewers) && a.next.ready && a.next.start.prepared && a.next.start.handle != ""
  {
    AdmissionExactly(c, rest, Reviewer, "", a.next);
  }

  /** It reviews the named epic in the repository of the session, on the first open review seat. */
  lemma ReviewSession(c: Config, rest: Live, s: Session, outcome: Outcome, a: Answers)
    ensures var t := Successor(c, rest, s, outcome, a);
            t.Some? && !t.value.fallbackAttempted && t.value.role == Reviewer ==>
              a.dueEpic.Some?
              && t.value == Session(a.next.start.handle, s.repo, a.dueEpic.value, Reviewer, t.value.seat, false, false,
                                    Working)
              && OnFirstOpen(rest, c.reviewers, t.value.seat)
  {
    FirstFreeSeat(rest, c.reviewers);
  }

  /** Nobody else is ever handed over to. */
  lemma NobodyElse(c: Config, rest: Live, s: Session, outcome: Outcome, a: Answers)
    ensures var t := Successor(c, rest, s, outcome, a);
            t.Some? ==> t.value.fallbackAttempted || t.value.role in {Repairer, Reviewer}
  {
  }

  /** The runner never hands out the handle of a session that is still registered. */
  predicate FreshHandles(m: Live, a: Answers) {
    a.retry.handle !in m && a.next.start.handle !in m
  }

  /** Whatever the outcome and the answers, a completion is one of the allowed steps. */
  lemma SuccessorIsAllowed(c: Config, m: Live, h: string, outcome: Outcome, a: Answers)
    requires Good(c, m) && h in m && FreshHandles(m, a)
    ensures Allowed(c, m, Complete(h, Successor(c, m - {h}, m[h], outcome, a)))
  {
    FirstFreeIsFree(m - {h}, c.Seats(Reviewer));
  }

  /** A repairer put on a seat that was chosen earlier, outside the admission lock, keeps seats
      distinct exactly when that seat is still free. */
  lemma RepairKeepsSeatsExactlyWhenFree(c: Config, m: Live, repo: string, task: string, seat: string, a: Admission)
    requires Good(c, m) && a.start.handle !in m && Admits(c, m, Repairer, seat, a)
    ensures var s := Admitted(c, m, repo, task, Repairer, seat, a);
            SeatsDistinct(m[s.handle := s]) <==> seat == "" || !SeatTaken(m, seat)
  {
    FirstFreeIsFree(m, c.Seats(Repairer));
    AddKeepsSeatsExactlyWhenFree(m, Admitted(c, m, repo, task, Repairer, seat, a));
  }

  /** It can be taken: an implementer admitted on the seat "x" after the repair was given that seat. */
  lemma RepairOnTakenSeat()
    ensures var c, s := Config(["x"], [], ["x"], []), Session("h", "r", "t", Implementer, "x", false, false, Working);
            var m, a := map["h" := s], Admission(true, Some(false), true, true, Start(true, "k"));
            FirstFree(map[], c.Seats(Repairer)) == "x" && Good(c, m) && Admits(c, m, Repairer, "x", a)
            && !SeatsDistinct(m["k" := Admitted(c, m, "r", "u", Repairer, "x", a)])
  {
    var c, s := Config(["x"], [], ["x"], []), Session("h", "r", "t", Implementer, "x", false, false, Working);
    var m, a := map["h" := s], Admission(true, Some(false), true, true, Start(true, "k"));
    assert map[]["h" := s] == m && Holding(map[], Implementer) == {};
    assert forall role: Role :: Holding(map[], role) == {};
    AddedIsGood(c, map[], s);
    assert Holding(m, Repairer) == {};
    assert m["h"].seat == "x";
    RepairKeepsSeatsExactlyWhenFree(c, m, "r", "u", "x", a);
  }

  // ------------------------------------------------------------ claims

  /** The claims after an admission attempt on bead. */
  function ClaimsAfterSpawn(c: Config, m: Live, claims: set<Bead>, bead: Bead, role: Role, seat: string,
                            a: Admission): set<Bead>
  {
    if role == Reviewer || !Reaches(c, m, role, seat, a) || !a.claimed then claims
    else if a.start.Ok() then claims + {bead}
    else claims - {bead}
  }

  /** The claims after a completion: released, closed, handed over, or left as they were. */
  function ClaimsAfter(c: Config, rest: Live, claims: set<Bead>, s: Session, outcome: Outcome, a: Answers): set<Bead> {
    if s.role == Reviewer || FallsBack(s, outcome, a) then claims
    else if Conflicts(s, outcome, a) && s.role == Repairer then claims
    else if Conflicts(s, outcome, a) then ClaimsAfterSpawn(c, rest, claims, BeadOf(s), Repairer, s.seat, a.next)
    else if LandsClean(s, outcome, a) && s.role == Designer then claims
    else claims - {BeadOf(s)}
  }

  /** Claims of other tasks stay. The claim of a completed session is held afterwards exactly when a
      fallback or a designer's landing keeps it, or its landing conflicted: then a repair claims it
      anew, loses it when it cannot start, and otherwise leaves it. A reviewer has none. */
  lemma ClaimsExactly(c: Config, rest: Live, claims: set<Bead>, s: Session, outcome: Outcome, a: Answers, b: Bead)
    ensures s.role == Reviewer || b != (s.repo, s.task) ==>
      (b in ClaimsAfter(c, rest, claims, s, outcome, a) <==> b in claims)
    ensures s.role != Reviewer && b == (s.repo, s.task) ==>
      (b in ClaimsAfter(c, rest, claims, s, outcome, a) <==>
         if outcome != Completed then
           b in claims && !s.fallbackAttempted && (outcome == Limited || a.limited) && a.fallbackModel
           && a.retry.prepared && a.retry.handle != ""
         else if !a.diff then false
         else if a.land == Some(LandOK) then b in claims && s.role == Designer
         else if a.land == Some(LandConflict) then
           if s.role != Repairer && a.next.valid && a.next.humanOnly == Some(false)
              && (forall h | h in rest :: rest[h].role != Repairer) && (s.seat != "" || SeatOpen(rest, c.repairers))
              && a.next.ready && a.next.claimed
           then a.next.start.prepared && a.next.start.handle != ""
           else b in claims
         else false)
  {
    NoneHolding(rest, Repairer);
    FirstFreeExactly(rest, c.repairers);
  }

  /** The session is gone, nobody took over its task, and its claim is still held. */
  predicate Orphaned(c: Config, rest: Live, claims: set<Bead>, s: Session, outcome: Outcome, a: Answers) {
    s.role != Reviewer && BeadOf(s) in ClaimsAfter(c, rest, claims, s, outcome, a)
    && match Successor(c, rest, s, outcome, a)
       case Some(t) => t.role == Reviewer || BeadOf(t) != BeadOf(s)
       case None => true
  }

  /** A claimed task is left claimed with nobody working on it in exactly two cases: a designer's
      work landed, or a landing conflicted and no repair got as far as claiming. */
  lemma OrphanedExactly(c: Config, rest: Live, claims: set<Bead>, s: Session, outcome: Outcome, a: Answers)
    requires s.role != Reviewer && BeadOf(s) in claims
    ensures Orphaned(c, rest, claims, s, outcome, a) <==>
              || (s.role == Designer && LandsClean(s, outcome, a))
              || (Conflicts(s, outcome, a)
                  && (s.role == Repairer || !Reaches(c, rest, Repairer, s.seat, a.next) || !a.next.claimed))
  {
  }

  /** For instance an implementer's landing conflicts and the repair is refused. */
  lemma OrphanedByRefusedRepair(c: Config, s: Session)
    requires s.role == Implementer
    ensures var refused := Admission(false, None, false, false, Start(false, ""));
            var a := Answers(true, Some(LandConflict), false, false, false, None, false, false, false,
                             Start(false, ""), refused);
            Orphaned(c, map[], {BeadOf(s)}, s, Completed, a)
  {
  }

  // ------------------------------------------------------------ the dispatcher

  /** The daemon's dispatcher. Channels are numbered; claims is what the task store believes. */
  class Dispatcher {
    const config: Config
    var sessions: Live
    var claims: set<Bead>
    var draining: bool
    var tickInFlight: bool
    var pendingNotify: bool
    var running: bool
    var drainDone: Option<nat>
    var drainClosed: bool
    var made: nat
    var closed: set<nat>
    ghost var history: seq<Action>

    /** The sessions come from a run of allowed handlers. */
    ghost predicate Runs()
      reads this`sessions, this`history
    {
      RunAllowed(config, history) && sessions == Fleet.Run(history)
    }

    ghost predicate Waiting()
      reads this`drainDone, this`drainClosed
    {
      drainDone.Some? && !drainClosed
    }

    ghost predicate ChannelsOk()
      reads this`drainDone, this`drainClosed, this`made, this`closed
    {
      (forall ch | ch in closed :: ch < made)
      && (drainDone.Some? ==> drainDone.value < made && (drainClosed <==> drainDone.value in closed))
      && (drainClosed ==> drainDone.Some?)
    }

    /** Between handlers an unfinished drain means that sessions are alive. */
    ghost predicate Valid()
      reads this
    {
      Runs() && ChannelsOk() && (Waiting() ==> sessions != map[])
    }

    constructor (config: Config)
      ensures Valid() && this.config == config && sessions == map[] && claims == {} && !draining && !Waiting()
    {
      this.config := config;
      sessions, claims, history := map[], {}, [];
      draining, tickInFlight, pendingNotify, running := false, false, false, false;
      drainDone, drainClosed, made, closed := None, false, 0, {};
    }

    // ---------------------------------------------------------- registry

    method Add(s: Session)
      modifies this`sessions
      ensures sessions == old(sessions)[s.handle := s]
    {
      sessions := sessions[s.handle := s];
    }

    method Remove(handle: string) returns (s: Option<Session>)
      modifies this`sessions
      ensures sessions == old(sessions) - {handle}
      ensures s == if handle in old(sessions) then Some(old(sessions)[handle]) else None
    {
      if handle !in sessions {
        assert sessions - {handle} == sessions;
        return None;
      }
      s := Some(sessions[handle]);
      sessions := sessions - {handle};
    }

    method ActiveCount(role: Role) returns (count: nat)
      ensures count == |Holding(sessions, role)|
    {
      count := 0;
      var rest := sessions.Keys;
      ghost var holding := Holding(sessions, role);
      while rest != {}
        invariant rest <= sessions.Keys && count == |holding - rest|
        decreases |rest|
      {
        var h :| h in rest;
        CountOne(holding, rest, h);
        if sessions[h].role == role { count := count + 1; }
        rest := rest - {h};
      }
      assert holding - rest == holding;
    }

    method Occupied(seat: string) returns (occupied: bool)
      ensures occupied == SeatTaken(sessions, seat)
    {
      var rest := sessions.Keys;
      while rest != {}
        invariant rest <= sessions.Keys
        invariant forall h | h in sessions && h !in rest :: sessions[h].seat != seat
        decreases |rest|
      {
        var h :| h in rest;
        if sessions[h].seat == seat { return true; }
        rest := rest - {h};
      }
      return false;
    }

    /** The first configured seat of the role that no live session of any role sits on. */
    method FreeSeat(role: Role) returns (seat: string)
      ensures seat == FirstFree(sessions, config.Seats(role))
    {
      var seats := config.Seats(role);
      for i := 0 to |seats|
        invariant FirstFree(sessions, seats[i..]) == FirstFree(sessions, seats)
      {
        assert seats[i..][0] == seats[i] && seats[i..][1..] == seats[i + 1..];
        var occupied := Occupied(seats[i]);
        if !occupied { return seats[i]; }
      }
      return "";
    }

    method Rewrite(handle: string, s: Session) returns (ok: bool)
      requires Valid()
      requires handle in sessions ==> Allowed(config, sessions, Amend(handle, s))
      modifies this`sessions, this`history
      ensures Valid() && ok == (handle in old(sessions))
      ensures sessions == if ok then old(sessions)[handle := s] else old(sessions)
      ensures history == if ok then old(history) + [Amend(handle, s)] else old(history)
    {
      if handle !in sessions { return false; }
      Extend(history, Amend(handle, s));
      sessions := sessions[handle := s];
      history := history + [Amend(handle, s)];
      return true;
    }

    method SetStatus(handle: string, status: Status) returns (ok: bool)
      requires Valid()
      modifies this`sessions, this`history
      ensures Valid() && ok == (handle in old(sessions)) && (!ok ==> sessions == old(sessions))
      ensures ok ==> sessions == old(sessions)[handle := old(sessions)[handle].(status := status)]
    {
      if handle !in sessions { return false; }
      EveryRunIsGood(config, history);
      ok := Rewrite(handle, sessions[handle].(status := status));
    }

    method MarkDecomposition(handle: string) returns (ok: bool)
      requires Valid()
      modifies this`sessions, this`history
      ensures Valid() && ok == (handle in old(sessions)) && (!ok ==> sessions == old(sessions))
      ensures ok ==> sessions == old(sessions)[handle := old(sessions)[handle].(decomposition := true)]
    {
      if handle !in sessions { return false; }
      EveryRunIsGood(config, history);
      ok := Rewrite(handle, sessions[handle].(decomposition := true));
    }

    // ---------------------------------------------------------- admission

    /** Claims the task and starts a session. handle is empty when it was refused. */
    method Spawn(repo: string, task: string, role: Role, seat: string, a: Admission) returns (handle: string)
      modifies this`sessions, this`claims
      ensures handle == if Admits(config, old(sessions), role, seat, a) then a.start.handle else ""
      ensures claims == ClaimsAfterSpawn(config, old(sessions), old(claims), (repo, task), role, seat, a)
      ensures sessions == if handle == "" then old(sessions)
                          else
                            var s := Admitted(config, old(sessions), repo, task, role, seat, a);
                            old(sessions)[handle := s.(status := Working)]
    {
      if !a.valid { return ""; }
      if a.humanOnly != Some(false) { return ""; }
      var active := ActiveCount(role);
      if active >= config.Cap(role) { return ""; }
      var chosen := seat;
      if chosen == "" { chosen := FreeSeat(role); }
      if chosen == "" || !a.ready { return ""; }
      if role != Reviewer {
        if !a.claimed { return ""; }
        claims := claims + {(repo, task)};
      }
      if !a.start.Ok() {
        if role != Reviewer { claims := claims - {(repo, task)}; }
        return "";
      }
      Add(Session(a.start.handle, repo, task, role, chosen, false, false, Working));
      return a.start.handle;
    }

    method Repair(repo: string, seat: string, task: string, a: Admission) returns (handle: string)
      modifies this`sessions, this`claims
      ensures handle == if Admits(config, old(sessions), Repairer, seat, a) then a.start.handle else ""
      ensures claims == ClaimsAfterSpawn(config, old(sessions), old(claims), (repo, task), Repairer, seat, a)
      ensures sessions == if handle == "" then old(sessions)
                          else old(sessions)[handle := Admitted(config, old(sessions), repo, task, Repairer, seat, a)]
    {
      handle := Spawn(repo, task, Repairer, seat, a);
      if handle != "" { sessions := sessions[handle := sessions[handle].(status := Repairing)]; }
    }

    /** plan: the gate produced a review plan. */
    method Review(repo: string, epic: string, plan: bool, a: Admission) returns (handle: string)
      modifies this`sessions, this`claims
      ensures handle == if plan && Admits(config, old(sessions), Reviewer, "", a) then a.start.handle else ""
      ensures claims == old(claims)
      ensures sessions == if handle == "" then old(sessions)
                          else old(sessions)[handle := Admitted(config, old(sessions), repo, epic, Reviewer, "", a)]
    {
      if !plan { return ""; }
      handle := Spawn(repo, epic, Reviewer, "", a);
    }

    /** A fresh task for an implementer or a designer, on a free seat of its role. */
    method Dispatch(repo: string, task: string, role: Role, a: Admission) returns (handle: string)
      requires Valid() && role in {Implementer, Designer} && a.start.handle !in sessions
      modifies this`sessions, this`claims, this`history
      ensures Valid() && handle == if Admits(config, old(sessions), role, "", a) then a.start.handle else ""
      ensures claims == ClaimsAfterSpawn(config, old(sessions), old(claims), (repo, task), role, "", a)
      ensures var s := Admitted(config, old(sessions), repo, task, role, "", a);
              history == if handle == "" then old(history) else old(history) + [Admit(s)]
      ensures handle != "" ==>
        handle in sessions && var s := sessions[handle];
        s == Session(handle, repo, task, role, s.seat, false, false, Working)
        && OnFirstOpen(old(sessions), SeatsOf(config, role), s.seat)
    {
      FirstFreeIsFree(sessions, config.Seats(role));
      FirstFreeSeat(sessions, config.Seats(role));
      handle := Spawn(repo, task, role, "", a);
      ghost var s := Admitted(config, old(sessions), repo, task, role, "", a);
      if handle != "" { Note(s); }
    }

    /** A repair asked for by hand, on whatever seat was found for it: it may have been taken since,
        and then, and only then, two sessions sit on it. */
    method RepairAt(repo: string, task: string, seat: string, a: Admission) returns (handle: string)
      requires Valid() && a.start.handle !in sessions
      modifies this`sessions, this`claims, this`history
      ensures handle == if Admits(config, old(sessions), Repairer, seat, a) then a.start.handle else ""
      ensures claims == ClaimsAfterSpawn(config, old(sessions), old(claims), (repo, task), Repairer, seat, a)
      ensures var s := Admitted(config, old(sessions), repo, task, Repairer, seat, a);
              sessions == if handle == "" then old(sessions) else old(sessions)[handle := s]
      ensures SeatsDistinct(sessions) <==> handle == "" || seat == "" || !SeatTaken(old(sessions), seat)
      ensures SeatsDistinct(sessions) ==>
        var s := Admitted(config, old(sessions), repo, task, Repairer, seat, a);
        Valid() && history == if handle == "" then old(history) else old(history) + [Admit(s)]
    {
      ghost var before, s := sessions, Admitted(config, sessions, repo, task, Repairer, seat, a);
      EveryRunIsGood(config, history);
      FirstFreeIsFree(before, config.Seats(Repairer));
      handle := Repair(repo, seat, task, a);
      if handle != "" {
        RepairKeepsSeatsExactlyWhenFree(config, before, repo, task, seat, a);
        if seat == "" || !SeatTaken(before, seat) { Note(s); }
      }
    }

    /** A repair asked for by hand, with no admission between the search for its seat and its own:
        it starts on a free repair seat. */
    method DispatchRepair(repo: string, task: string, a: Admission) returns (handle: string)
      requires Valid() && a.start.handle !in sessions
      modifies this`sessions, this`claims, this`history
      ensures Valid() && handle == if Admits(config, old(sessions), Repairer, "", a) then a.start.handle else ""
      ensures claims == ClaimsAfterSpawn(config, old(sessions), old(claims), (repo, task), Repairer, "", a)
      ensures var s := Admitted(config, old(sessions), repo, task, Repairer, "", a);
              history == if handle == "" then old(history) else old(history) + [Admit(s)]
    {
      var seat := FreeSeat(Repairer);
      FirstFreeIsFree(sessions, config.Seats(Repairer));
      handle := RepairAt(repo, task, seat, a);
    }

    /** A review asked for by hand starts on a free review seat and claims nothing. */
    method DispatchReview(repo: string, epic: string, plan: bool, a: Admission) returns (handle: string)
      requires Valid() && a.start.handle !in sessions
      modifies this`sessions, this`claims, this`history
      ensures Valid() && claims == old(claims)
      ensures handle == if plan && Admits(config, old(sessions), Reviewer, "", a) then a.start.handle else ""
      ensures var s := Admitted(config, old(sessions), repo, epic, Reviewer, "", a);
              history == if handle == "" then old(history) else old(history) + [Admit(s)]
    {
      FirstFreeIsFree(sessions, config.Seats(Reviewer));
      handle := Review(repo, epic, plan, a);
      ghost var s := Admitted(config, old(sessions), repo, epic, Reviewer, "", a);
      if handle != "" { Note(s); }
    }

    /** Records that the sessions are those of the history with one more on a free seat. */
    ghost method Note(s: Session)
      requires RunAllowed(config, history) && s.handle !in Fleet.Run(history)
      requires sessions == Fleet.Run(history)[s.handle := s] && ChannelsOk()
      requires |Holding(Fleet.Run(history), s.role)| < config.Cap(s.role)
      requires s.seat != "" && !SeatTaken(Fleet.Run(history), s.seat)
      modifies this`history
      ensures Valid() && history == old(history) + [Admit(s)]
    {
      Extend(history, Admit(s));
      history := history + [Admit(s)];
      assert s.handle in sessions;
    }

    // ---------------------------------------------------------- completion

    /** One bounded retry on the same seat with the fallback model, past the cap check. */
    method FallbackRetry(s: Session, outcome: Outcome, a: Answers) returns (retried: bool)
      requires outcome != Completed
      modifies this`sessions
      ensures retried == FallsBack(s, outcome, a)
      ensures sessions == if retried then old(sessions)[a.retry.handle := FallbackOf(s, a)] else old(sessions)
    {
      if s.fallbackAttempted { return false; }
      var limited := outcome == Limited;
      if !limited {
        limited := a.limited;
        if !limited { return false; }
      }
      if !a.fallbackModel { return false; }
      if !a.retry.Ok() { return false; }
      Add(Session(a.retry.handle, s.repo, s.task, s.role, s.seat, false, true, Working));
      return true;
    }

    method Release(s: Session)
      modifies this`claims
      ensures claims == old(claims) - {BeadOf(s)}
    {
      claims := claims - {BeadOf(s)};
    }

    /** The work landed: a designer is done; any other task is checked, closed and may make a
        review due. */
    method Landed(s: Session, a: Answers)
      requires s.role != Reviewer && a.diff && a.land == Some(LandOK)
      modifies this`sessions, this`claims
      ensures claims == if s.role == Designer then old(claims) else old(claims) - {BeadOf(s)}
      ensures sessions == With(old(sessions), Successor(config, old(sessions), s, Completed, a))
    {
      if s.role == Designer { return; }
      if !a.landed || !a.taskLanded || !a.closed {
        Release(s);
        return;
      }
      claims := claims - {BeadOf(s)};
      if a.dueEpic.None? || a.dueEpic.value == "" { return; }
      var handle := Review(s.repo, a.dueEpic.value, a.reviewPlan, a.next);
    }

    method Routed(s: Session, a: Answers)
      modifies this`sessions, this`claims
      ensures sessions == With(old(sessions), Successor(config, old(sessions), s, Completed, a))
      ensures claims == ClaimsAfter(config, old(sessions), old(claims), s, Completed, a)
    {
      if s.role == Reviewer { return; }
      if !a.diff {
        Release(s);
        return;
      }
      match a.land
      case Some(LandOK) => Landed(s, a);
      case Some(LandConflict) =>
        if s.role != Repairer { var handle := Repair(s.repo, s.seat, s.task, a.next); }
      case _ => Release(s);
    }

    /** What has become of the sessions, claims and history: an unknown handle changes nothing; a live
        session goes and hands over. */
    ghost predicate CompletedSince(m: Live, held: set<Bead>, past: seq<Action>, handle: string, outcome: Outcome,
                                   a: Answers)
      reads this`sessions, this`claims, this`history
    {
      if handle !in m then sessions == m && claims == held && history == past
      else
        var s, rest := m[handle], m - {handle};
        sessions == With(rest, Successor(config, rest, s, outcome, a))
        && claims == ClaimsAfter(config, rest, held, s, outcome, a)
        && history == past + [Complete(handle, Successor(config, rest, s, outcome, a))]
    }

    /** Handles one session's terminal outcome, as one step. */
    method OnComplete(handle: string, outcome: Outcome, a: Answers)
      requires Valid() && FreshHandles(sessions, a)
      modifies this
      ensures Valid() && drainDone == old(drainDone) && draining == old(draining) && running == old(running)
      ensures CompletedSince(old(sessions), old(claims), old(history), handle, outcome, a)
      ensures closed == old(closed)
                        + if handle in old(sessions) && old(Waiting()) && sessions == map[]
                          then {drainDone.value} else {}
    {
      var known := RemoveAndRoute(handle, outcome, a);
      if known { CompleteDrain(); }
    }

    method RemoveAndRoute(handle: string, outcome: Outcome, a: Answers) returns (known: bool)
      requires Runs() && FreshHandles(sessions, a)
      modifies this`sessions, this`claims, this`history
      ensures Runs() && known == (handle in old(sessions))
      ensures CompletedSince(old(sessions), old(claims), old(history), handle, outcome, a)
    {
      EveryRunIsGood(config, history);
      var removed := Remove(handle);
      if removed.None? { return false; }
      ghost var step := Complete(handle, Successor(config, sessions, removed.value, outcome, a));
      SuccessorIsAllowed(config, old(sessions), handle, outcome, a);
      Route(removed.value, outcome, a);
      NoteCompletion(step);
      return true;
    }

    /** Routes a session that is no longer registered. */
    method Route(s: Session, outcome: Outcome, a: Answers)
      modifies this`sessions, this`claims
      ensures sessions == With(old(sessions), Successor(config, old(sessions), s, outcome, a))
      ensures claims == ClaimsAfter(config, old(sessions), old(claims), s, outcome, a)
    {
      if outcome == Completed {
        Routed(s, a);
      } else {
        var retried := FallbackRetry(s, outcome, a);
        if !retried && s.role != Reviewer { Release(s); }
      }
    }

    ghost method NoteCompletion(step: Action)
      requires RunAllowed(config, history) && Allowed(config, Fleet.Run(history), step)
      requires sessions == Fleet.Next(Fleet.Run(history), step)
      modifies this`history
      ensures Runs() && history == old(history) + [step]
    {
      Extend(history, step);
      history := history + [step];
    }

    // ---------------------------------------------------------- drain

    /** Closes the drain channel once nothing is left; a channel is never closed twice. */
    method CompleteDrain()
      requires Runs() && ChannelsOk()
      modifies this`drainClosed, this`closed
      ensures Valid()
      ensures closed == old(closed) + if old(Waiting()) && sessions == map[] then {drainDone.value} else {}
    {
      if sessions.Keys != {} { return; }
      assert sessions == map[];
      if drainDone.Some? && !drainClosed {
        CloseChannel(drainDone.value);
        drainClosed := true;
      }
    }

    /** Closing a closed channel would panic. */
    method CloseChannel(ch: nat)
      requires ch < made && ch !in closed
      modifies this`closed
      ensures closed == old(closed) + {ch}
    {
      closed := closed + {ch};
    }

    method ClosedDrain() returns (ch: nat)
      requires ChannelsOk()
      modifies this`made, this`closed
      ensures ChannelsOk() && ch == old(made) && made == ch + 1 && closed == old(closed) + {ch}
    {
      ch := made;
      made := made + 1;
      CloseChannel(ch);
    }

    method HandoffOne(handle: string)
      requires Runs() && handle in sessions
      modifies this`sessions, this`claims, this`history
      ensures Runs() && sessions == old(sessions) - {handle}
      ensures var s := old(sessions)[handle];
              claims == if s.role == Reviewer then old(claims) else old(claims) - {BeadOf(s)}
    {
      var s := sessions[handle];
      if s.role != Reviewer { Release(s); }
      var _ := Remove(handle);
      Extend(history, Forget(handle));
      history := history + [Forget(handle)];
    }

    /** Forgets every live session and releases its claim. */
    method ForgetLive()
      requires Runs()
      modifies this`sessions, this`claims, this`history
      ensures Runs() && sessions == map[] && ReleasedAll(old(sessions), sessions, old(claims), claims)
    {
      ghost var live, start := sessions, claims;
      while sessions.Keys != {}
        invariant Runs() && SomeOf(sessions, live) && ReleasedAll(live, sessions, start, claims)
        decreases |sessions.Keys|
      {
        var h :| h in sessions;
        ghost var before, held := sessions, claims;
        HandoffOne(h);
        OneReleased(live, before, start, held, h);
        assert sessions.Keys == before.Keys - {h};
      }
      assert sessions == map[];
    }

    /** Forgets every live session and ends a drain that was waiting for them. */
    method HandoffLive()
      requires Valid()
      modifies this`sessions, this`claims, this`history, this`drainClosed, this`closed
      ensures Valid() && sessions == map[]
      ensures closed == old(closed) + if old(Waiting()) then {drainDone.value} else {}
      ensures ReleasedAll(old(sessions), sessions, old(claims), claims)
    {
      ForgetLive();
      CompleteDrain();
    }

    /** Halts polling. The returned channel is closed already, unless a soft stop has to wait for
        live sessions; repeated soft stops wait on one channel. */
    method Stop(hard: bool) returns (done: nat)
      requires Valid()
      modifies this
      ensures Valid() && !running && !tickInFlight && done < made
      ensures hard ==>
        draining && sessions == map[] && done in closed
        && ReleasedAll(old(sessions), sessions, old(claims), claims)
      ensures !hard ==> sessions == old(sessions) && claims == old(claims) && history == old(history)
      ensures !hard ==> (done in closed <==> sessions == map[])
      ensures !hard && sessions != map[] ==> draining && drainDone == Some(done) && Waiting()
      ensures old(Waiting()) && !hard ==> drainDone == old(drainDone)
    {
      running := false;
      tickInFlight := false;
      if hard { draining := true; }
      if hard {
        HandoffLive();
        done := ClosedDrain();
        return;
      }
      if sessions.Keys == {} {
        assert sessions == map[];
        done := ClosedDrain();
        return;
      }
      done := WaitIdle();
    }

    /** Live sessions have to finish: the channel to wait on, a fresh one unless one is waited on. */
    method WaitIdle() returns (done: nat)
      requires Valid() && sessions != map[]
      modifies this`draining, this`drainDone, this`drainClosed, this`made
      ensures Valid() && draining && drainDone == Some(done) && Waiting() && done < made && done !in closed
      ensures old(Waiting()) ==> drainDone == old(drainDone)
    {
      draining := true;
      if drainDone.None? || drainClosed {
        drainDone, drainClosed := Some(made), false;
        made := made + 1;
      }
      done := drainDone.value;
    }

    /** Makes a restarted dispatcher pick up work again; a drain that is still waiting goes on. */
    method ClearFreeze()
      requires Valid()
      modifies this`draining, this`tickInFlight, this`pendingNotify
      ensures Valid() && !draining && !tickInFlight && !pendingNotify
    {
      draining, tickInFlight, pendingNotify := false, false, false;
    }
  }

  /** Of the claims held before, exactly the tasks of the sessions that are gone are released. */
  ghost predicate ReleasedAll(live: Live, left: Live, held: set<Bead>, claims: set<Bead>) {
    forall b :: b in claims <==> b in held && !ReleasedBy(live, left, b)
  }

  ghost predicate ReleasedBy(live: Live, left: Live, b: Bead) {
    exists h :: h in live && h !in left && live[h].role != Reviewer && (live[h].repo, live[h].task) == b
  }

  ghost predicate SomeOf(left: Live, live: Live) {
    left.Keys <= live.Keys && forall h | h in left :: left[h] == live[h]
  }

  lemma OneReleased(live: Live, left: Live, held: set<Bead>, claims: set<Bead>, h: string)
    requires SomeOf(left, live) && ReleasedAll(live, left, held, claims) && h in left
    ensures var s := left[h];
            SomeOf(left - {h}, live)
            && ReleasedAll(live, left - {h}, held, if s.role == Reviewer then claims else claims - {BeadOf(s)})
  {
    var s := left[h];
    forall b
      ensures ReleasedBy(live, left - {h}, b) <==> ReleasedBy(live, left, b) || (s.role != Reviewer && b == BeadOf(s))
    {
      if k :| k in live && k !in left && live[k].role != Reviewer && (live[k].repo, live[k].task) == b {
        assert k !in left - {h};
      }
      if s.role != Reviewer && b == BeadOf(s) { assert h in live && h !in left - {h} && live[h] == s; }
    }
  }

  lemma CountOne(holding: set<string>, rest: set<string>, h: string)
    requires h in rest
    ensures |holding - (rest - {h})| == |holding - rest| + if h in holding then 1 else 0
  {
    assert holding - (rest - {h}) == (holding - rest) + if h in holding then {h} else {};
  }

  lemma Extend(history: seq<Action>, a: Action)
    ensures (history + [a])[..|history|] == history && Fleet.Run(history + [a]) == Fleet.Next(Fleet.Run(history), a)
  {
    assert (history + [a])[..|history|] == history;
  }

  // ------------------------------------------------------------ a soft drain, whole

  datatype Completion = Completion(handle: string, outcome: Outcome, answers: Answers)

  /** The completion is of a live session; the runner reuses no live handle. */
  predicate Counts(m: Live, x: Completion) {
    x.handle in m && FreshHandles(m, x.answers)
  }

  function Handled(c: Config, m: Live, x: Completion): Live {
    if Counts(m, x) then
      Fleet.Next(m, Complete(x.handle, Successor(c, m - {x.handle}, m[x.handle], x.outcome, x.answers)))
    else m
  }

  /** Who is left after the completions. */
  function HandledAll(c: Config, m: Live, xs: seq<Completion>): Live {
    if xs == [] then m else Handled(c, HandledAll(c, m, xs[..|xs| - 1]), xs[|xs| - 1])
  }

  /** How many of the completions were of sessions then live. */
  function Counted(c: Config, m: Live, xs: seq<Completion>): nat {
    if xs == [] then 0
    else
      Counted(c, m, xs[..|xs| - 1]) + if Counts(HandledAll(c, m, xs[..|xs| - 1]), xs[|xs| - 1]) then 1 else 0
  }

  lemma HandledSnoc(c: Config, m: Live, xs: seq<Completion>, n: nat)
    requires n < |xs|
    ensures HandledAll(c, m, xs[..n + 1]) == Handled(c, HandledAll(c, m, xs[..n]), xs[n])
    ensures Counted(c, m, xs[..n + 1])
            == Counted(c, m, xs[..n]) + if Counts(HandledAll(c, m, xs[..n]), xs[n]) then 1 else 0
  {
    assert xs[..n + 1][..n] == xs[..n];
  }

  /** One completion of a draining dispatcher. */
  method DrainOne(d: Dispatcher, x: Completion)
    requires d.Valid() && d.drainDone.Some? && FreshHandles(d.sessions, x.answers)
    requires d.drainDone.value in d.closed <==> d.sessions == map[]
    modifies d
    ensures d.Valid() && d.drainDone == old(d.drainDone)
    ensures d.drainDone.value in d.closed <==> d.sessions == map[]
    ensures d.sessions == Handled(d.config, old(d.sessions), x)
    ensures Weight(d.sessions) + (if Counts(old(d.sessions), x) then 1 else 0) <= Weight(old(d.sessions))
  {
    ghost var before, past := d.sessions, d.history;
    d.OnComplete(x.handle, x.outcome, x.answers);
    if x.handle in before {
      var successor := Successor(d.config, before - {x.handle}, before[x.handle], x.outcome, x.answers);
      Extend(past, Complete(x.handle, successor));
      CompletionLowersWeight(d.config, before, x.handle, successor);
    }
  }

  /** After a soft stop, with no new admissions: whatever completions arrive, the drain channel is
      closed exactly when nobody is left, and no more completions of live sessions arrive than the
      weight of those that were live at the stop. */
  method DrainAll(d: Dispatcher, completions: seq<Completion>)
    requires d.Valid() && d.Waiting()
    modifies d
    ensures d.Valid() && d.drainDone == old(d.drainDone)
    ensures d.drainDone.value in d.closed <==> d.sessions == map[]
    ensures d.sessions == HandledAll(d.config, old(d.sessions), completions)
    ensures Counted(d.config, old(d.sessions), completions) + Weight(d.sessions) <= Weight(old(d.sessions))
  {
    ghost var m := d.sessions;
    for i := 0 to |completions|
      invariant d.Valid() && d.drainDone == old(d.drainDone)
      invariant d.drainDone.value in d.closed <==> d.sessions == map[]
      invariant d.sessions == HandledAll(d.config, m, completions[..i])
      invariant Counted(d.config, m, completions[..i]) + Weight(d.sessions) <= Weight(m)
    {
      HandledSnoc(d.config, m, completions, i);
      if FreshHandles(d.sessions, completions[i].answers) { DrainOne(d, completions[i]); }
    }
    assert completions[..|completions|] == completions;
  }
}
