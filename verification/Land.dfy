/** The landing pipeline of internal/land: commit, rebase, linearity check, stamp, gate, and
    fast-forward with one retry. Other seats may act before every command. */
module Land {
  import opened Text
  import opened Git
  import opened Repo
  import opened Replay
  import S = Stamp

  datatype Outcome = OutcomeFailed | OutcomeLanded | OutcomeConflict | OutcomeGateFailed

  function OutcomeOf(err: Error): Outcome {
    match err
    case None => OutcomeLanded
    case Some(s) =>
      if Conflict in s then OutcomeConflict else if GateFailed in s then OutcomeGateFailed else OutcomeFailed
  }

  function Last(log: seq<Record>): Record
    requires log != []
  {
    log[|log| - 1]
  }

  // ------------------------------------------------------------ commit

  /** The worktree was recorded in a new commit on HEAD: one on top of it, or one in its place
      with its message, author and date. */
  ghost predicate Recorded(w: World, s: Seat, w': World, s': Seat, onTop: bool, work: Meta) {
    var h, h' := s.HeadCommit(), s'.HeadCommit();
    h < |w.commits| <= h' < |w'.commits| && s'.head.OnBranch? == s.head.OnBranch?
    && w'.commits[h'] == if onTop then Git.Commit([h], work) else w.commits[h]
  }

  method RecordWork(repo: Repository, seat: string, merged: bool, work: Meta) returns (answer: Answer)
    requires repo.Valid() && seat in repo.world.seats && MetaOk(work)
    modifies repo
    ensures repo.Continues()
    ensures var s, s' := old(repo.world).seats[seat], repo.world.seats[seat];
            Saved(old(repo.world), s, repo.world, s', answer, merged, work)
  {
    ghost var before;
    HeadKnown(repo.world, seat);
    answer, before := repo.Save(seat, !merged, work);
    AnswerRecorded(old(repo.world), before, repo.world, seat, answer, merged, work);
  }

  lemma AnswerRecorded(w: World, before: World, w': World, seat: string, answer: Answer, onTop: bool, work: Meta)
    requires seat in w.seats && seat in before.seats && before.seats[seat] == w.seats[seat]
    requires w.commits <= before.commits && w.seats[seat].HeadCommit() < |w.commits|
    requires w' == match answer
                   case Made =>
                     if onTop then WithCommit(before, seat, false, work) else Amended(before, seat, None)
                   case Idle => Put(before, seat, Nothing, before.seats[seat])
                   case Refused => Put(before, seat, Query(false), before.seats[seat])
    ensures Saved(w, w.seats[seat], w', w'.seats[seat], answer, onTop, work)
  {
    if answer == Made { CommitRecorded(w, before, seat, onTop, work); }
  }

  /** One command, and its answer: a commit, nothing to commit, or a refusal. */
  ghost predicate Saved(w: World, s: Seat, w': World, s': Seat, answer: Answer, onTop: bool, work: Meta) {
    s.log <= s'.log && |s'.log| == |s.log| + 1
    && match answer
       case Made => Stage(s, s', None) && Recorded(w, s, w', s', onTop, work) && Last(s'.log).command == Rewrite
       case Idle => OnlyRead(s, s') && Last(s'.log).command == Nothing
       case Refused => Stopped(s, s')
  }

  lemma CommitRecorded(w: World, before: World, seat: string, onTop: bool, work: Meta)
    requires seat in w.seats && seat in before.seats && before.seats[seat] == w.seats[seat]
    requires w.commits <= before.commits && w.seats[seat].HeadCommit() < |w.commits|
    ensures var w' := if onTop then WithCommit(before, seat, false, work) else Amended(before, seat, None);
            var s, s' := w.seats[seat], w'.seats[seat];
            Recorded(w, s, w', s', onTop, work) && Stage(s, s', None) && |s'.log| == |s.log| + 1
            && Last(s'.log).command == Rewrite
  {
  }

  /** The second command asked whether integration has the branch, and the third recorded the
      worktree on top of HEAD if it has, in its place if it has not. */
  ghost predicate WorkRecorded(w: World, s: Seat, w': World, s': Seat, work: Meta)
    requires CommitsOk(w'.commits)
  {
    var n := |s.log|;
    s.log <= s'.log && |s'.log| == n + 3 && s'.log[n + 1].command.Ancestry? && s'.log[n + 2].command == Rewrite
    && s.tip < |w'.commits| && s'.log[n + 1].integration < |w'.commits|
    && var merged := s'.log[n + 1].command.merged;
       merged == Ancestor(w'.commits, s.tip, s'.log[n + 1].integration) && Recorded(w, s, w', s', merged, work)
  }

  /** The worktree was staged and recorded, or git found nothing to record. */
  ghost predicate CommitDone(w: World, s: Seat, w': World, s': Seat, work: Meta) {
    CommitsOk(w'.commits) && |s'.log| == |s.log| + 3 && s'.log[|s.log|].command == Query(true)
    && s'.log[|s.log| + 1].command.Ancestry?
    && if s'.log[|s.log| + 2].command == Nothing then OnlyRead(s, s') else WorkRecorded(w, s, w', s', work)
  }

  /** Two commands only read, and the second asked whether integration has the branch. */
  ghost predicate Asked(s: Seat, w: World, s': Seat) {
    WorldOk(w) && OnlyRead(s, s') && |s'.log| == |s.log| + 2 && s.tip < |w.commits|
    && s'.log[|s.log|].command == Query(true)
    && Last(s'.log).command == Ancestry(Ancestor(w.commits, s.tip, w.integration))
    && Last(s'.log).integration == w.integration
  }

  /** Stages the worktree and asks; None when either fails. */
  method StageAndAsk(repo: Repository, seat: string) returns (merged: Option<bool>)
    requires repo.Valid() && seat in repo.world.seats
    modifies repo
    ensures repo.Continues()
    ensures var s, s' := old(repo.world).seats[seat], repo.world.seats[seat];
            if merged.None? then Stopped(s, s') && |s'.log| <= |s.log| + 2
            else Asked(s, repo.world, s') && Last(s'.log).command.merged == merged.value
  {
    HeadKnown(repo.world, seat);
    var staged := repo.Ask(seat);
    if !staged { return None; }
    merged := repo.IsAncestor(seat);
  }

  lemma CommitFinished(w: World, s: Seat, asked: World, s1: Seat, w': World, s': Seat, answer: Answer, work: Meta)
    requires Asked(s, asked, s1) && CommitsOk(w'.commits) && w.commits <= asked.commits <= w'.commits
    requires s.tip < |w.commits| && s.HeadCommit() < |w.commits|
    requires Saved(asked, s1, w', s', answer, Last(s1.log).command.merged, work)
    ensures if answer == Refused then Stopped(s, s') else Stage(s, s', None) && CommitDone(w, s, w', s', work)
  {
    AncestorStable(asked.commits, w'.commits, s.tip, asked.integration);
    assert Last(s1.log) == s'.log[|s.log| + 1];
  }

  /** Records the worktree: a new commit when integration already has the branch, otherwise an
      amend that keeps message and author. An empty commit is no failure. */
  method CommitWork(repo: Repository, seat: string, work: Meta) returns (err: Error)
    requires repo.Valid() && seat in repo.world.seats && MetaOk(work)
    modifies repo
    ensures repo.Continues()
    ensures var s, s' := old(repo.world).seats[seat], repo.world.seats[seat];
            Stage(s, s', err)
            && if err.Some? then Stopped(s, s') && |s'.log| <= |s.log| + 3
               else CommitDone(old(repo.world), s, repo.world, s', work)
  {
    HeadKnown(repo.world, seat);
    ghost var w, s := repo.world, repo.world.seats[seat];
    var merged := StageAndAsk(repo, seat);
    if merged.None? { return Some({Other}); }
    ghost var asked, s1 := repo.world, repo.world.seats[seat];
    var answer := RecordWork(repo, seat, merged.value, work);
    CommitFinished(w, s, asked, s1, repo.world, repo.world.seats[seat], answer, work);
    if answer != Refused { return None; }
    return Some({Other});
  }

  // ------------------------------------------------------------ rebase and linearity

  datatype RebaseResult = RebaseOk | RebaseConflict | RebaseFailed

  function ResultOf(exit: Exit): RebaseResult {
    match exit
    case Ok => RebaseOk
    case Failed(conflict, _) => if conflict then RebaseConflict else RebaseFailed
  }

  /** A rebase, aborted when it failed. */
  ghost predicate Rebased(s: Seat, w: World, s': Seat, result: RebaseResult) {
    var n := |s.log|;
    s.log <= s'.log && n < |s'.log| && s'.log[n].command.Rebase? && result == ResultOf(s'.log[n].command.exit)
    && if result == RebaseOk then
         s' == s.(head := OnBranch).Moved(s'.tip).Noted(Git.Rebase(Ok), w.integration)
         && WorldOk(w) && s'.tip < |w.commits| && Ancestor(w.commits, w.integration, s'.tip)
       else
         s'.(head := s.head, tally := s.tally, log := s.log) == s && s'.tally == Told(s.tally, RebaseError(result))
         && Aborted(s'.log, n)
  }

  /** Command k, a rebase, failed, and at most its abort follows. */
  predicate Aborted(log: seq<Record>, k: nat) {
    k < |log| && log[k].command.Rebase? && Stops(log[k].command)
    && (|log| == k + 1 || (|log| == k + 2 && log[k + 1].command == Rewrite))
  }

  /** A refused command, or one that was answered with no, ended the landing. */
  predicate Halted(log: seq<Record>) {
    log != [] && (Stops(Last(log).command) || (|log| >= 2 && Aborted(log, |log| - 2)))
  }

  /** Rebases the branch; a failure is aborted and leaves the branch where it was. */
  method Rebase(repo: Repository, seat: string) returns (result: RebaseResult)
    requires repo.Valid() && seat in repo.world.seats
    modifies repo
    ensures repo.Continues()
    ensures var s, s' := old(repo.world).seats[seat], repo.world.seats[seat];
            Rebased(s, repo.world, s', result)
            && (result == RebaseOk ==> Keeps(old(repo.world), s.tip, repo.world, s'.tip))
  {
    var exit := repo.RebaseCommand(seat);
    if exit == Ok { return RebaseOk; }
    var head := *;
    if head { repo.MoveHead(seat, OnBranch); }
    return ResultOf(exit);
  }

  /** Command n is a rebase that succeeded, and the next one a count of merges that is zero. */
  predicate Checked(log: seq<Record>, n: nat) {
    n + 2 <= |log| && log[n].command == Git.Rebase(Ok) && log[n + 1].command == Merges(0)
  }

  lemma RebasedStage(s: Seat, w: World, s': Seat, result: RebaseResult)
    requires Rebased(s, w, s', result)
    ensures Stage(s, s', RebaseError(result)) && |s.log| < |s'.log|
    ensures result == RebaseOk ==>
      s'.head == OnBranch && |s'.log| == |s.log| + 1 && s'.log[|s.log|].command == Git.Rebase(Ok)
    ensures result != RebaseOk ==> !Checked(s'.log, |s.log|) && Aborted(s'.log, |s.log|) && Halted(s'.log)
  {
  }

  lemma StageAfter(s: Seat, s1: Seat, s2: Seat, err: Error)
    requires Stage(s, s1, None) && Stage(s1, s2, err)
    ensures Stage(s, s2, err)
  {
  }

  function RebaseError(result: RebaseResult): Error {
    match result
    case RebaseOk => None
    case RebaseConflict => Some({Conflict})
    case RebaseFailed => Some({Other})
  }

  /** The last command asked for the number of merges, and only zero goes on. */
  ghost predicate MergesCounted(s: Seat, s': Seat, err: Error) {
    s.log <= s'.log && s'.(tally := s.tally, log := s.log) == s && s'.tally == Told(s.tally, err)
    && |s'.log| == |s.log| + 1
    && match Last(s'.log).command
       case Merges(count) => err == if count == 0 then None else Some({Conflict, NotLinear})
       case c => c == Query(false) && (err == Some({Other}) || err == Some({NotLinear}))
  }

  lemma CheckedAfter(s: Seat, w: World, s1: Seat, s': Seat, err: Error)
    requires Rebased(s, w, s1, RebaseOk) && MergesCounted(s1, s', err)
    ensures Stage(s, s', err) && (err.None? <==> Checked(s'.log, |s.log|)) && (err.Some? ==> Halted(s'.log))
    ensures s'.head == OnBranch && |s'.log| == |s.log| + 2
  {
  }

  /** The answer to a count of merges. */
  method CheckLinear(repo: Repository, seat: string) returns (err: Error)
    requires repo.Valid() && seat in repo.world.seats
    modifies repo
    ensures repo.Continues()
    ensures var s, s' := old(repo.world).seats[seat], repo.world.seats[seat];
            MergesCounted(s, s', err)
    ensures err.None? ==> LinearBranch(repo.world, repo.world.seats[seat].tip)
  {
    var merges := repo.CountMerges(seat);
    if merges.None? { return Some({Other}); }
    if merges.value.None? { return Some({NotLinear}); }
    if merges.value.value != 0 { return Some({Conflict, NotLinear}); }
    return None;
  }

  method RebaseAndCheck(repo: Repository, seat: string) returns (err: Error)
    requires repo.Valid() && seat in repo.world.seats
    modifies repo
    ensures repo.Continues()
    ensures var s, s' := old(repo.world).seats[seat], repo.world.seats[seat];
            Stage(s, s', err) && (err.None? <==> Checked(s'.log, |s.log|)) && (err.Some? ==> Halted(s'.log))
            && (err.None? ==>
                  s'.head == OnBranch && |s'.log| == |s.log| + 2 && LinearBranch(repo.world, s'.tip)
                  && Lasts(old(repo.world), s.tip, repo.world, s'.tip))
  {
    ghost var w, s := repo.world, repo.world.seats[seat];
    var result := Rebase(repo, seat);
    ghost var w1, s1 := repo.world, repo.world.seats[seat];
    RebasedStage(s, w1, s1, result);
    if result != RebaseOk { return RebaseError(result); }
    label Rebased:
    err := CheckLinear(repo, seat);
    CheckedAfter(s, w1, s1, repo.world.seats[seat], err);
    repo.MovedForward@Rebased();
    StillLasts(w, s.tip, w1, s1.tip, repo.world);
  }

  lemma StillLasts(w: World, tip: nat, w1: World, tip1: nat, w': World)
    requires Lasts(w, tip, w1, tip1) && Forward(w1, w')
    ensures Lasts(w, tip, w', tip1)
  {
    LastsForward(w1, w', tip1);
    LastsTransitive(w, tip, w1, tip1, w', tip1);
  }

  // ------------------------------------------------------------ gate and fast-forward

  /** The error that the last command of a gated fast-forward stands for. A divergence is a
      conflict only when it is the second one. */
  function Verdict(c: Command, again: bool): Error
    requires c.Gate? || c.FastForward?
  {
    match c
    case Gate(passed) => if passed then None else Some({GateFailed})
    case FastForward(exit) =>
      if exit == Ok then None else if again && exit.diverged then Some({Conflict}) else Some({Other})
  }

  predicate Diverged(c: Command) {
    c.FastForward? && c.exit != Ok && c.exit.diverged
  }

  /** From command n on: a gate and, exactly when it passed, a fast-forward. */
  predicate GatedAt(log: seq<Record>, n: nat) {
    n < |log| && log[n].command.Gate?
    && if log[n].command.passed then |log| == n + 2 && log[n + 1].command.FastForward? else |log| == n + 1
  }

  /** The last two commands landed the branch: the gate passed on its tip, and the fast-forward
      put this very commit into integration. */
  ghost predicate Landed(before: Seat, w: World, s: Seat) {
    var n := |s.log|;
    before.log <= s.log && n >= |before.log| + 2
    && s.log[n - 2].command == Gate(true) && s.log[n - 2].tip == s.tip
    && s.log[n - 1].command == FastForward(Ok) && s.log[n - 1].tip == s.tip
    && s.landed == before.landed + [s.tip] && s.passed == Some(s.tip) && s.head == OnBranch
    && WorldOk(w) && s.tip < |w.commits| && Ancestor(w.commits, s.tip, w.integration)
  }

  /** Exactly one thing landed, or nothing did; a failure is blamed on the gate if and only if
      the last command of this landing was a gate that failed, and, when that was neither a gate
      nor a fast-forward, on a conflict if and only if git spoke of one. */
  ghost predicate Ended(before: Seat, w: World, s: Seat, err: Error) {
    before.log <= s.log && |before.log| < |s.log|
    && if err.None? then Landed(before, w, s)
       else
         s.landed == before.landed && (GateFailed in err.value <==> Last(s.log).command == Gate(false))
         && (Plain(Last(s.log).command) ==>
               (Conflict in err.value <==> before.tally.conflicts < s.tally.conflicts))
  }

  /** A gate ran, at most one fast-forward, and nothing that could conflict. */
  ghost predicate OneMore(s: Seat, s': Seat) {
    s.log <= s'.log && s'.tally.attempts == s.tally.attempts + |s'.log| - |s.log| - 1
    && s'.tally.conflicts == s.tally.conflicts
  }

  /** How a gated fast-forward ends. */
  ghost predicate GateEnd(s: Seat, w: World, s': Seat, err: Error, retry: bool) {
    GatedAt(s'.log, |s.log|) && err == Verdict(Last(s'.log).command, false)
    && retry == Diverged(Last(s'.log).command) && Ended(s, w, s', err)
    && s'.tip == s.tip && s'.head == OnBranch && OneMore(s, s')
  }

  /** The gate and one fast-forward. retry: git said the branches diverged. */
  method GateAndForward(repo: Repository, seat: string) returns (err: Error, retry: bool)
    requires repo.Valid() && seat in repo.world.seats && repo.world.seats[seat].head == OnBranch
    modifies repo
    ensures repo.Continues()
    ensures var s, s' := old(repo.world).seats[seat], repo.world.seats[seat];
            GateEnd(s, repo.world, s', err, retry)
            && (err.None? ==> Forward(old(repo.world), At(repo.world, Last(s'.log))))
  {
    ghost var w, s := repo.world, repo.world.seats[seat];
    var passed := repo.RunGate(seat);
    repo.MovedForward();
    ghost var gated, i := repo.world, repo.world.integration;
    if !passed {
      GateStopped(s, gated, i);
      return Some({GateFailed}), false;
    }
    var exit, at := repo.FastForwardCommand(seat);
    GatePassedEnd(s, repo.world, exit, i, at);
    if exit == Ok {
      AtForward(w, gated, repo.world, Last(repo.world.seats[seat].log));
      return None, false;
    }
    return Some({Other}), exit.diverged;
  }

  lemma GateStopped(s: Seat, w: World, i: nat)
    requires s.head == OnBranch
    ensures GateEnd(s, w, s.(passed := None).Noted(Gate(false), i), Some({GateFailed}), false)
  {
  }

  lemma GatePassedEnd(s: Seat, w: World, exit: Exit, i: nat, at: nat)
    requires s.head == OnBranch && WorldOk(w)
    requires exit == Ok ==> s.tip < |w.commits| && Ancestor(w.commits, s.tip, w.integration)
    ensures var s1 := s.(passed := Some(s.tip)).Noted(Gate(true), i);
            if exit == Ok then GateEnd(s, w, s1.(landed := s.landed + [s.tip]).Noted(FastForward(Ok), at), None, false)
            else GateEnd(s, w, s1.Noted(FastForward(exit), at), Some({Other}), exit.diverged)
  {
  }

  lemma AtForward(w: World, gated: World, w': World, r: Record)
    requires Forward(w, gated) && WorldOk(w') && gated.commits <= w'.commits && r.integration < |w'.commits|
    requires Ancestor(w'.commits, gated.integration, r.integration)
    ensures Forward(w, At(w', r))
  {
    ForwardTransitive(w, gated, At(w', r));
  }

  // ------------------------------------------------------------ stamp when asked

  /** The branch carries the stamp that was asked for, put there by this landing: after its first
      n commands it listed its own commits, and what it listed is stamped as a whole. */
  ghost predicate AsAsked(w: World, s: Seat, n: nat, l: nat, b: nat, v: S.Vocabulary,
                          stamp: Option<seq<S.Trailer>>)
  {
    stamp.Some? ==> n <= l && Stamped(w, s, l, b, v, stamp.value)
  }

  lemma AsAskedStable(w: World, s: Seat, w': World, s': Seat, n: nat, l: nat, b: nat, v: S.Vocabulary,
                      stamp: Option<seq<S.Trailer>>)
    requires Forward(w, w') && AsAsked(w, s, n, l, b, v, stamp)
    requires s.log <= s'.log && s'.tip == s.tip && s'.head == s.head
    ensures AsAsked(w', s', n, l, b, v, stamp)
  {
    if stamp.Some? { StampedStable(w, s, w', s', l, b, v, stamp.value); }
  }

  /** Stamps the branch when a stamp was asked for. */
  method StampIfAsked(repo: Repository, seat: string, v: S.Vocabulary, stamp: Option<seq<S.Trailer>>)
    returns (err: Error, ghost b: nat)
    requires repo.Valid() && seat in repo.world.seats && repo.world.seats[seat].head == OnBranch
    modifies repo
    ensures repo.Continues()
    ensures var s, s' := old(repo.world).seats[seat], repo.world.seats[seat];
            Stage(s, s', err) && (stamp.None? ==> err.None? && s'.log == s.log)
            && if err.Some? then StampRefused(s'.log, |s.log|)
               else
                 s'.head == OnBranch && AsAsked(repo.world, s', |s.log|, |s.log|, b, v, stamp)
                 && Keeps(old(repo.world), s.tip, repo.world, s'.tip)
  {
    b := 0;
    if stamp.None? {
      HeadKnown(repo.world, seat);
      KeepsForward(repo.world, repo.world, repo.world.seats[seat].tip);
      return None, b;
    }
    err, b := StampRange(repo, seat, v, stamp.value);
  }

  // ------------------------------------------------------------ one retry

  /** How the gated fast-forward of a prepared branch ends: one try that did not diverge, or a
      divergence, one rebase, and, unless git refused that or the stamp, a second and last try. */
  ghost predicate Forwarded(log: seq<Record>, n: nat, stamped: bool, err: Error) {
    n < |log|
    && if |log| > n + 1 && Diverged(log[n + 1].command) then
         log[n].command == Gate(true) && |log| > n + 2 && log[n + 2].command.Rebase?
         && (RenewFailed(log, n + 2, stamped, err) || Retried(log, n + 2, err))
       else GatedAt(log, n) && err == Verdict(Last(log).command, false)
  }

  /** The rebase, command k, failed, or it succeeded and git refused the stamp that was asked for. */
  ghost predicate RenewFailed(log: seq<Record>, k: nat, stamped: bool, err: Error)
    requires k < |log| && log[k].command.Rebase?
  {
    err.Some? && Quiet(log, k, |log|)
    && if log[k].command.exit == Ok then stamped && StampRefused(log, k + 1)
       else Aborted(log, k) && err == RebaseError(ResultOf(log[k].command.exit))
  }

  /** The rebase, command k, succeeded, and a second try ended the landing. */
  ghost predicate Retried(log: seq<Record>, k: nat, err: Error)
    requires k < |log| && log[k].command.Rebase?
  {
    log[k].command.exit == Ok
    && exists m :: k < m < |log| && Quiet(log, k, m) && Accepted(log, k, m) && GatedAt(log, m)
                   && err == Verdict(Last(log).command, true)
  }

  /** An ending seen from an earlier state of the landing. */
  lemma EndedSince(before: Seat, middle: Seat, w: World, s: Seat, err: Error)
    requires before.landed == middle.landed && before.log <= middle.log
    requires before.tally.conflicts == middle.tally.conflicts && Ended(middle, w, s, err)
    ensures Ended(before, w, s, err)
  {
  }

  lemma StageEnded(before: Seat, w: World, s: Seat, err: Error)
    requires err.Some? && Stage(before, s, err)
    ensures Ended(before, w, s, err)
  {
  }

  /** What a landing that fast-forwarded put into integration carries the stamp asked for. */
  ghost predicate Added(w: World, s: Seat, n: nat, l: nat, b: nat, v: S.Vocabulary, stamp: Option<seq<S.Trailer>>) {
    s.log != [] && AsAsked(At(w, Last(s.log)), s, n, l, b, v, stamp)
  }

  /** The gate and one fast-forward of a branch that carries its stamp. */
  method LandOnce(repo: Repository, seat: string, v: S.Vocabulary, stamp: Option<seq<S.Trailer>>,
                  ghost n: nat, ghost l: nat, ghost b: nat)
    returns (err: Error, retry: bool)
    requires repo.Valid() && seat in repo.world.seats && repo.world.seats[seat].head == OnBranch
    requires AsAsked(repo.world, repo.world.seats[seat], n, l, b, v, stamp)
    modifies repo
    ensures repo.Continues()
    ensures var s, s' := old(repo.world).seats[seat], repo.world.seats[seat];
            GateEnd(s, repo.world, s', err, retry)
            && (err.None? ==>
                  Keeps(old(repo.world), s.tip, At(repo.world, Last(s'.log)), s'.tip)
                  && Added(repo.world, s', n, l, b, v, stamp))
  {
    HeadKnown(repo.world, seat);
    ghost var w, s := repo.world, repo.world.seats[seat];
    err, retry := GateAndForward(repo, seat);
    if err.None? {
      ghost var s' := repo.world.seats[seat];
      KeepsForward(w, At(repo.world, Last(s'.log)), s.tip);
      AsAskedStable(w, s, At(repo.world, Last(s'.log)), s', n, l, b, v, stamp);
    }
  }

  /** After a divergence: one rebase, and the stamp again. */
  method Renew(repo: Repository, seat: string, v: S.Vocabulary, stamp: Option<seq<S.Trailer>>)
    returns (err: Error, ghost l: nat, ghost b: nat)
    requires repo.Valid() && seat in repo.world.seats && repo.world.seats[seat].head == OnBranch
    modifies repo
    ensures repo.Continues()
    ensures var s, s' := old(repo.world).seats[seat], repo.world.seats[seat];
            Stage(s, s', err) && |s.log| < |s'.log| && s'.log[|s.log|].command.Rebase?
            && Quiet(s'.log, |s.log|, |s'.log|)
            && if err.Some? then RenewFailed(s'.log, |s.log|, stamp.Some?, err)
               else
                 s'.log[|s.log|].command.exit == Ok && s'.head == OnBranch && Accepted(s'.log, |s.log|, |s'.log|)
                 && AsAsked(repo.world, s', |s.log|, l, b, v, stamp)
                 && Keeps(old(repo.world), s.tip, repo.world, s'.tip)
  {
    ghost var w, s := repo.world, repo.world.seats[seat];
    l, b := |s.log| + 1, 0;
    var result := Rebase(repo, seat);
    ghost var w1, s1 := repo.world, repo.world.seats[seat];
    RebasedStage(s, w1, s1, result);
    if result != RebaseOk {
      repo.Counted(seat);
      return RebaseError(result), l, b;
    }
    err, b := StampIfAsked(repo, seat, v, stamp);
    StageAfter(s, s1, repo.world.seats[seat], err);
    repo.Counted(seat);
    if err.None? { KeepsTransitive(w, s.tip, w1, s1.tip, repo.world, repo.world.seats[seat].tip); }
  }

  /** The last try: a divergence is now a conflict. */
  method LandAgain(repo: Repository, seat: string, v: S.Vocabulary, stamp: Option<seq<S.Trailer>>,
                   ghost n: nat, ghost l: nat, ghost b: nat)
    returns (err: Error)
    requires repo.Valid() && seat in repo.world.seats && repo.world.seats[seat].head == OnBranch
    requires AsAsked(repo.world, repo.world.seats[seat], n, l, b, v, stamp)
    modifies repo
    ensures repo.Continues()
    ensures var s, s' := old(repo.world).seats[seat], repo.world.seats[seat];
            GatedAt(s'.log, |s.log|) && err == Verdict(Last(s'.log).command, true)
            && Ended(s, repo.world, s', err) && s.log <= s'.log
            && s.tally.attempts <= s'.tally.attempts <= s.tally.attempts + 1
            && (err.None? ==>
                  Added(repo.world, s', n, l, b, v, stamp)
                  && Keeps(old(repo.world), s.tip, At(repo.world, Last(s'.log)), s'.tip))
  {
    var retry;
    err, retry := LandOnce(repo, seat, v, stamp, n, l, b);
    if retry { return Some({Conflict}); }
  }

  /** After a divergence: rebase, stamp, gate and fast-forward once more. */
  method LandRenewed(repo: Repository, seat: string, v: S.Vocabulary, stamp: Option<seq<S.Trailer>>, ghost n: nat)
    returns (err: Error, ghost l: nat, ghost b: nat)
    requires repo.Valid() && seat in repo.world.seats && repo.world.seats[seat].head == OnBranch
    requires n <= |repo.world.seats[seat].log|
    modifies repo
    ensures repo.Continues()
    ensures var s, s' := old(repo.world).seats[seat], repo.world.seats[seat];
            var k := |s.log|;
            k < |s'.log| && s'.log[k].command.Rebase?
            && (RenewFailed(s'.log, k, stamp.Some?, err) || Retried(s'.log, k, err))
            && Ended(s, repo.world, s', err) && s.tally.attempts <= s'.tally.attempts <= s.tally.attempts + 1
            && (err.None? ==>
                  Added(repo.world, s', n, l, b, v, stamp)
                  && Keeps(old(repo.world), s.tip, At(repo.world, Last(s'.log)), s'.tip))
  {
    ghost var w, s := repo.world, repo.world.seats[seat];
    err, l, b := Renew(repo, seat, v, stamp);
    ghost var w1, s1 := repo.world, repo.world.seats[seat];
    if err.Some? {
      StageEnded(s, w1, s1, err);
      return;
    }
    err := LandAgain(repo, seat, v, stamp, n, l, b);
    ghost var s' := repo.world.seats[seat];
    RetriedAt(s1.log, s'.log, |s.log|, err);
    EndedSince(s, s1, repo.world, s', err);
    if err.None? { KeepsTransitive(w, s.tip, w1, s1.tip, At(repo.world, Last(s'.log)), s'.tip); }
  }

  lemma RetriedAt(first: seq<Record>, log: seq<Record>, k: nat, err: Error)
    requires k < |first| && first <= log && Quiet(first, k, |first|) && Accepted(first, k, |first|)
    requires first[k].command == Git.Rebase(Ok)
    requires GatedAt(log, |first|) && err == Verdict(Last(log).command, true)
    ensures Retried(log, k, err)
  {
    assert Quiet(log, k, |first|) && Accepted(log, k, |first|);
  }

  lemma TriedOnce(log: seq<Record>, n: nat, stamped: bool, err: Error)
    requires GatedAt(log, n) && !Diverged(Last(log).command) && err == Verdict(Last(log).command, false)
    ensures Forwarded(log, n, stamped, err)
  {
  }

  lemma TriedTwice(first: seq<Record>, log: seq<Record>, n: nat, stamped: bool, err: Error)
    requires GatedAt(first, n) && Diverged(Last(first).command) && first <= log
    requires |log| > |first| && log[|first|].command.Rebase?
    requires RenewFailed(log, |first|, stamped, err) || Retried(log, |first|, err)
    ensures Forwarded(log, n, stamped, err)
  {
    assert Last(first) == first[n + 1] == log[n + 1];
  }

  /** Gates and fast-forwards a rebased branch; after one divergence it rebases, restamps, gates
      and fast-forwards once more. n counts the commands of the seat before its stamp. */
  method LandRebased(repo: Repository, seat: string, v: S.Vocabulary, stamp: Option<seq<S.Trailer>>,
                     ghost n: nat, ghost l: nat, ghost b: nat)
    returns (err: Error, ghost l': nat, ghost b': nat)
    requires repo.Valid() && seat in repo.world.seats && repo.world.seats[seat].head == OnBranch
    requires n <= |repo.world.seats[seat].log| && AsAsked(repo.world, repo.world.seats[seat], n, l, b, v, stamp)
    modifies repo
    ensures repo.Continues()
    ensures var s, s' := old(repo.world).seats[seat], repo.world.seats[seat];
            Forwarded(s'.log, |s.log|, stamp.Some?, err) && Ended(s, repo.world, s', err)
            && s.tally.attempts <= s'.tally.attempts <= s.tally.attempts + 2
    ensures err.None? ==>
      var s, s' := old(repo.world).seats[seat], repo.world.seats[seat];
      Added(repo.world, s', n, l', b', v, stamp)
      && Keeps(old(repo.world), s.tip, At(repo.world, Last(s'.log)), s'.tip)
  {
    HeadKnown(repo.world, seat);
    ghost var w, s := repo.world, repo.world.seats[seat];
    l', b' := l, b;
    var retry;
    err, retry := LandOnce(repo, seat, v, stamp, n, l, b);
    ghost var w1, s1 := repo.world, repo.world.seats[seat];
    if !retry {
      TriedOnce(s1.log, |s.log|, stamp.Some?, err);
      return;
    }
    repo.MovedForward();
    err, l', b' := LandRenewed(repo, seat, v, stamp, n);
    ghost var s' := repo.world.seats[seat];
    TriedTwice(s1.log, s'.log, |s.log|, stamp.Some?, err);
    EndedSince(s, s1, repo.world, s', err);
    if err.None? { KeepsLater(w, w1, s.tip, At(repo.world, Last(s'.log)), s'.tip); }
  }

  lemma KeepsLater(w: World, w1: World, tip: nat, w': World, tip': nat)
    requires Forward(w, w1) && tip < |w.commits| && Keeps(w1, tip, w', tip')
    ensures Keeps(w, tip, w', tip')
  {
    KeepsForward(w, w1, tip);
    KeepsTransitive(w, tip, w1, tip, w', tip');
  }

  // ------------------------------------------------------------ the whole landing

  /** Before its stamp a landing runs seven commands: begin, stage, ask for ancestry, record,
      verify the branch, a rebase that succeeds and a count of merges that is zero. */
  predicate Prepared(log: seq<Record>, n: nat) {
    Checked(log, n + 5) && log[n].command == Begin && log[n + 1].command == Query(true)
    && log[n + 2].command.Ancestry? && log[n + 3].command in {Rewrite, Nothing} && log[n + 4].command == Query(true)
  }

  /** From command n on no gate and no fast-forward runs before command k; from k on, if the landing
      got that far, which it does only when no command was refused, it is gated and fast-forwarded. */
  ghost predicate Course(log: seq<Record>, n: nat, k: nat, stamped: bool, err: Error) {
    n < |log| && n <= k && Quiet(log, n, k)
    && (k < |log| ==> Accepted(log, n, k) && Forwarded(log, k, stamped, err))
  }

  lemma CourseSince(first: seq<Record>, log: seq<Record>, n: nat, k: nat, stamped: bool, err: Error)
    requires first <= log && Quiet(first, n, |first|) && Accepted(first, n, |first|)
    requires Course(log, |first|, k, stamped, err)
    ensures Course(log, n, k, stamped, err)
  {
    forall i | n <= i < k
      ensures Plain(log[i].command) && (k < |log| ==> !Stops(log[i].command))
    {
      assert i < |first| ==> log[i] == first[i];
    }
  }

  /** What the commands from n on amount to. */
  ghost function OutcomeFrom(log: seq<Record>, n: nat): Outcome
    requires n < |log|
  {
    match Last(log).command
    case FastForward(exit) =>
      if exit == Ok then OutcomeLanded else if exit.diverged then OutcomeConflict else OutcomeFailed
    case Gate(_) => OutcomeGateFailed
    case _ => if Conflicted(log, n) then OutcomeConflict else OutcomeFailed
  }

  /** Landed by an accepted fast-forward alone, a gate failure by a gate alone; a conflict by a diverged
      fast-forward, or by a failed rebase or pick in which git spoke of one or merges that were counted. */
  lemma OutcomeExactly(log: seq<Record>, n: nat)
    requires n < |log|
    ensures var last, outcome := log[|log| - 1].command, OutcomeFrom(log, n);
            (outcome == OutcomeLanded <==> last == FastForward(Ok)) && (outcome == OutcomeGateFailed <==> last.Gate?)
            && (outcome == OutcomeConflict <==>
                  if last.FastForward? then last.exit.Failed? && last.exit.diverged
                  else !last.Gate? && exists i :: n <= i < |log| && match log[i].command
                                                                     case Rebase(Failed(conflict, _)) => conflict
                                                                     case Pick(Failed(conflict, _)) => conflict
                                                                     case Merges(count) => count > 0
                                                                     case _ => false)
  {
    assert Conflicted(log, n) <==> exists i :: n <= i < |log| && Conflicting(log[i].command);
  }

  /** The outcome is what the commands amount to. */
  lemma OutcomeRead(before: Seat, w: World, s: Seat, err: Error, k: nat, stamped: bool)
    requires Ended(before, w, s, err) && Tallied(before, s) && Course(s.log, |before.log|, k, stamped, err)
    ensures OutcomeOf(err) == OutcomeFrom(s.log, |before.log|)
  {
    QuietEnds(s.log, |before.log|);
    if Plain(Last(s.log).command) {
      PlainOutcome(before, w, s, err);
    } else {
      ForwardedOutcome(s.log, |before.log|, k, stamped, err);
    }
  }

  lemma PlainOutcome(before: Seat, w: World, s: Seat, err: Error)
    requires Ended(before, w, s, err) && Tallied(before, s) && Plain(Last(s.log).command)
    ensures OutcomeOf(err) == OutcomeFrom(s.log, |before.log|)
  {
  }

  lemma ForwardedOutcome(log: seq<Record>, n: nat, k: nat, stamped: bool, err: Error)
    requires Forwarded(log, k, stamped, err) && !Plain(Last(log).command) && n <= k
    ensures OutcomeOf(err) == OutcomeFrom(log, n)
  {
    if |log| > k + 2 { QuietEnds(log, k + 2); }
  }

  lemma QuietEnds(log: seq<Record>, k: nat)
    requires k < |log|
    ensures Quiet(log, k, |log|) ==> Plain(Last(log).command)
  {
  }

  /** Command n + 2 recorded the work or found nothing to record, in which case the branch stayed: on a
      checked-out branch what command n + 3 verified is a new commit on the old tip when integration
      had that, otherwise one in its place. */
  ghost predicate Holds(w: World, before: Seat, log: seq<Record>, n: nat, work: Meta) {
    n + 3 < |log| && log[n + 1].command.Ancestry?
    && match log[n + 2].command
       case Nothing => log[n + 3].tip == before.tip
       case Rewrite =>
         before.head == OnBranch ==>
           before.tip < |w.commits| && log[n + 3].tip < |w.commits|
           && w.commits[log[n + 3].tip]
              == if log[n + 1].command.merged then Git.Commit([before.tip], work) else w.commits[before.tip]
       case _ => false
  }

  lemma RecordedHolds(w: World, s: Seat, w1: World, s1: Seat, w': World, log: seq<Record>, work: Meta)
    requires CommitDone(w, s, w1, s1, work) && w.commits <= w1.commits <= w'.commits
    requires s1.log < log && log[|s1.log|].tip == s1.tip
    ensures Holds(w', s, log, |s.log|, work)
  {
    if s1.log[|s.log| + 2].command != Nothing { assert w.commits[s.HeadCommit()] == w'.commits[s.HeadCommit()]; }
  }

  /** The branch was verified and rebased, and its merges were counted: zero. */
  ghost predicate Based(s: Seat, w: World, s': Seat) {
    var n := |s.log|;
    |s'.log| == n + 3 && s.log <= s'.log && s'.log[n].command == Query(true) && Checked(s'.log, n + 1)
    && s'.head == OnBranch && LinearBranch(w, s'.tip)
    && s'.log[n].tip == s.tip && Lasts(At(w, s'.log[n]), s.tip, w, s'.tip)
  }

  /** And before that the work was recorded. */
  ghost predicate CommittedAndBased(s: Seat, w: World, s': Seat, work: Meta) {
    var n := |s.log|;
    |s'.log| == n + 6 && s'.log[n].command == Query(true) && s'.log[n + 1].command.Ancestry?
    && s'.log[n + 2].command in {Rewrite, Nothing} && s'.log[n + 3].command == Query(true) && Checked(s'.log, n + 4)
    && s'.head == OnBranch && LinearBranch(w, s'.tip)
    && Lasts(At(w, s'.log[n + 3]), s'.log[n + 3].tip, w, s'.tip) && Holds(w, s, s'.log, n, work)
  }

  lemma BasedAfter(w: World, s: Seat, w1: World, s1: Seat, w': World, s': Seat, work: Meta)
    requires CommitDone(w, s, w1, s1, work) && Based(s1, w', s') && w.commits <= w1.commits <= w'.commits
    ensures CommittedAndBased(s, w', s', work)
  {
    RecordedHolds(w, s, w1, s1, w', s'.log, work);
  }

  /** How a landing stands after its commit, branch check, rebase and linearity check. */
  ghost predicate BasedOrHalted(s: Seat, w: World, s': Seat, err: Error, work: Meta) {
    Stage(s, s', err)
    && if err.None? then CommittedAndBased(s, w, s', work) else Halted(s'.log) && !Checked(s'.log, |s.log| + 4)
  }

  lemma NotCommitted(s: Seat, w: World, s': Seat, err: Error, work: Meta)
    requires Stage(s, s', err) && err.Some? && Stopped(s, s') && |s'.log| <= |s.log| + 3
    ensures BasedOrHalted(s, w, s', err, work)
  {
  }

  lemma CommittedThen(w: World, s: Seat, w1: World, s1: Seat, w': World, s': Seat, err: Error, work: Meta)
    requires Stage(s, s1, None) && CommitDone(w, s, w1, s1, work) && Stage(s1, s', err)
    requires w.commits <= w1.commits <= w'.commits
    requires if err.None? then Based(s1, w', s') else Halted(s'.log) && !Checked(s'.log, |s1.log| + 1)
    ensures BasedOrHalted(s, w', s', err, work)
  {
    StageAfter(s, s1, s', err);
    if err.None? { BasedAfter(w, s, w1, s1, w', s', work); }
  }

  /** Commit, branch check, rebase and linearity check. */
  method CommitAndRebase(repo: Repository, seat: string, work: Meta) returns (err: Error)
    requires repo.Valid() && seat in repo.world.seats && MetaOk(work)
    modifies repo
    ensures repo.Continues()
    ensures var s, s' := old(repo.world).seats[seat], repo.world.seats[seat];
            BasedOrHalted(s, repo.world, s', err, work)
  {
    ghost var w, s := repo.world, repo.world.seats[seat];
    err := CommitWork(repo, seat, work);
    ghost var w1, s1 := repo.world, repo.world.seats[seat];
    if err.Some? {
      NotCommitted(s, w1, s1, err, work);
      return;
    }
    err := VerifyAndRebase(repo, seat);
    CommittedThen(w, s, w1, s1, repo.world, repo.world.seats[seat], err, work);
  }

  method VerifyAndRebase(repo: Repository, seat: string) returns (err: Error)
    requires repo.Valid() && seat in repo.world.seats
    modifies repo
    ensures repo.Continues()
    ensures var s, s' := old(repo.world).seats[seat], repo.world.seats[seat];
            Stage(s, s', err)
            && if err.None? then Based(s, repo.world, s') else Halted(s'.log) && !Checked(s'.log, |s.log| + 1)
  {
    var verified := repo.RevParse(seat);
    if verified.None? { return Some({BranchMissing, Other}); }
    ghost var w1, s1 := repo.world, repo.world.seats[seat];
    err := RebaseAndCheck(repo, seat);
    if err.None? {
      LastsSince(w1, At(repo.world, Last(s1.log)), s1.tip, repo.world, repo.world.seats[seat].tip);
    }
  }

  /** The seat between its preparation, which began at s, and its stamp. */
  ghost predicate Ready(s: Seat, w: World, s1: Seat, work: Meta) {
    Stage(s, s1, None) && |s1.log| == |s.log| + 7 && Prepared(s1.log, |s.log|) && s1.head == OnBranch
    && LinearBranch(w, s1.tip) && Tallied(s, s1)
    && Lasts(At(w, s1.log[|s.log| + 4]), s1.log[|s.log| + 4].tip, w, s1.tip)
    && Holds(w, s, s1.log, |s.log| + 1, work)
  }

  lemma Prepares(s: Seat, begun: Seat, at: nat, w: World, s': Seat, err: Error, work: Meta)
    requires begun == s.(passed := None).Noted(Begin, at)
    requires BasedOrHalted(begun, w, s', err, work) && Tallied(s, s')
    ensures Stage(s, s', err)
    ensures if err.None? then Ready(s, w, s', work) else Halted(s'.log) && !Prepared(s'.log, |s.log|)
  {
    assert s'.log[|s.log|] == begun.log[|s.log|];
  }

  /** Everything before the stamp. */
  method Prepare(repo: Repository, seat: string, work: Meta) returns (err: Error)
    requires repo.Valid() && seat in repo.world.seats && MetaOk(work)
    modifies repo
    ensures repo.Continues()
    ensures var s, s' := old(repo.world).seats[seat], repo.world.seats[seat];
            Stage(s, s', err) && Tallied(s, s')
            && if err.None? then Ready(s, repo.world, s', work)
               else Halted(s'.log) && !Prepared(s'.log, |s.log|)
  {
    ghost var s := repo.world.seats[seat];
    repo.StartLanding(seat);
    ghost var begun, at := repo.world.seats[seat], repo.world.integration;
    err := CommitAndRebase(repo, seat, work);
    repo.Counted(seat);
    Prepares(s, begun, at, repo.world, repo.world.seats[seat], err, work);
  }

  /** How a prepared branch is stamped and landed: from s in w to s' in w'. */
  ghost predicate StampedEnd(s: Seat, w: World, w': World, s': Seat, err: Error, k: nat, l: nat, b: nat,
                             v: S.Vocabulary, stamp: Option<seq<S.Trailer>>)
  {
    Ended(s, w', s', err) && s'.tally.attempts <= s.tally.attempts + 2
    && Course(s'.log, |s.log|, k, stamp.Some?, err) && k <= |s'.log|
    && (if stamp.None? then k == |s.log| else k == |s'.log| ==> StampRefused(s'.log, |s.log|))
    && (err.None? ==>
          Added(w', s', |s.log|, l, b, v, stamp) && Keeps(w, s.tip, At(w', Last(s'.log)), s'.tip))
  }

  /** Stamps, gates and fast-forwards a prepared branch. k counts the commands before the gate. */
  method StampAndLand(repo: Repository, seat: string, v: S.Vocabulary, stamp: Option<seq<S.Trailer>>)
    returns (err: Error, ghost k: nat, ghost l: nat, ghost b: nat)
    requires repo.Valid() && seat in repo.world.seats && repo.world.seats[seat].head == OnBranch
    requires LinearBranch(repo.world, repo.world.seats[seat].tip)
    modifies repo
    ensures repo.Continues()
    ensures var s, s' := old(repo.world).seats[seat], repo.world.seats[seat];
            StampedEnd(s, old(repo.world), repo.world, s', err, k, l, b, v, stamp)
  {
    ghost var w, s := repo.world, repo.world.seats[seat];
    l := |s.log|;
    err, b := StampIfAsked(repo, seat, v, stamp);
    repo.Counted(seat);
    ghost var w1, s1 := repo.world, repo.world.seats[seat];
    k := |s1.log|;
    if err.Some? {
      StageEnded(s, w1, s1, err);
      return;
    }
    err, l, b := LandRebased(repo, seat, v, stamp, |s.log|, l, b);
    ghost var s' := repo.world.seats[seat];
    CourseSince(s1.log, s'.log, |s.log|, k, stamp.Some?, err);
    EndedSince(s, s1, repo.world, s', err);
    if err.None? { KeepsTransitive(w, s.tip, w1, s1.tip, At(repo.world, Last(s'.log)), s'.tip); }
  }

  /** What the fast-forward put into integration is what the branch held when command n verified
      it: in that order, by the same authors, possibly without commits that integration had. */
  ghost predicate Delivered(w: World, s: Seat, n: nat) {
    n < |s.log| && Lasts(At(w, s.log[n]), s.log[n].tip, At(w, Last(s.log)), s.tip)
  }

  lemma DeliveredSince(w: World, s: Seat, w': World, s': Seat, n: nat)
    requires n < |s.log| && s.log <= s'.log && WorldOk(w') && w.commits <= w'.commits
    requires Lasts(At(w, s.log[n]), s.log[n].tip, w, s.tip)
    requires Lasts(w, s.tip, At(w', Last(s'.log)), s'.tip)
    ensures Delivered(w', s', n)
  {
    var end := At(w', Last(s'.log));
    LastsTransitive(At(w, s.log[n]), s.log[n].tip, w, s.tip, end, s'.tip);
    LastsSince(At(w, s.log[n]), At(w', s.log[n]), s.log[n].tip, end, s'.tip);
  }

  /** How a landing of a known seat ends. Before the stamp only a command that was refused or answered
      with no ends it; without a stamp the gate follows at once, and with one unless git refused it. */
  ghost predicate LandingEnd(s: Seat, w: World, s': Seat, err: Error, k: nat, l: nat, b: nat, work: Meta,
                             v: S.Vocabulary, stamp: Option<seq<S.Trailer>>)
  {
    var n := |s.log|;
    Ended(s, w, s', err) && s'.tally.attempts <= s.tally.attempts + 2
    && Course(s'.log, n, k, stamp.Some?, err) && k <= |s'.log| && OutcomeOf(err) == OutcomeFrom(s'.log, n)
    && (if Prepared(s'.log, n) then
          Holds(w, s, s'.log, n + 1, work)
          && if stamp.None? then k == n + 7 < |s'.log|
             else n + 7 <= k && (k == |s'.log| ==> StampRefused(s'.log, n + 7))
        else k == |s'.log| && Halted(s'.log))
    && (err.None? ==>
          Delivered(w, s', n + 4) && LinearBranch(At(w, Last(s'.log)), s'.tip)
          && Added(w, s', n + 7, l, b, v, stamp))
  }

  lemma NotPrepared(s: Seat, w: World, s': Seat, err: Error, work: Meta, v: S.Vocabulary,
                    stamp: Option<seq<S.Trailer>>)
    requires err.Some? && Stage(s, s', err) && Tallied(s, s') && Halted(s'.log) && !Prepared(s'.log, |s.log|)
    ensures LandingEnd(s, w, s', err, |s'.log|, 0, 0, work, v, stamp)
  {
    StageEnded(s, w, s', err);
    OutcomeRead(s, w, s', err, |s'.log|, stamp.Some?);
  }

  lemma ReadyEnd(s: Seat, w1: World, s1: Seat, w: World, s': Seat, err: Error, k: nat, l: nat, b: nat,
                 work: Meta, v: S.Vocabulary, stamp: Option<seq<S.Trailer>>)
    requires Ready(s, w1, s1, work) && Tallied(s1, s') && WorldOk(w) && w1.commits <= w.commits
    requires StampedEnd(s1, w1, w, s', err, k, l, b, v, stamp)
    ensures LandingEnd(s, w, s', err, k, l, b, work, v, stamp)
  {
    ReadyCourse(s, w1, s1, w, s', err, k, stamp.Some?, work);
    HoldsSince(s, w1, s1.log, w, s'.log, work);
    if err.None? { DeliveredSince(w1, s1, w, s', |s.log| + 4); }
  }

  lemma HoldsSince(s: Seat, w1: World, first: seq<Record>, w: World, log: seq<Record>, work: Meta)
    requires Prepared(first, |s.log|) && Holds(w1, s, first, |s.log| + 1, work)
    requires first <= log && w1.commits <= w.commits
    ensures Prepared(log, |s.log|) && Holds(w, s, log, |s.log| + 1, work)
  {
    assert forall i | 0 <= i < |first| :: log[i] == first[i];
  }

  lemma ReadyCourse(s: Seat, w1: World, s1: Seat, w: World, s': Seat, err: Error, k: nat, stamped: bool, work: Meta)
    requires Ready(s, w1, s1, work) && Tallied(s1, s') && Ended(s1, w, s', err)
    requires Course(s'.log, |s1.log|, k, stamped, err)
    ensures Ended(s, w, s', err) && Course(s'.log, |s.log|, k, stamped, err)
    ensures OutcomeOf(err) == OutcomeFrom(s'.log, |s.log|)
  {
    TalliedSince(s, s1, s');
    CourseSince(s1.log, s'.log, |s.log|, k, stamped, err);
    EndedSince(s, s1, w, s', err);
    OutcomeRead(s, w, s', err, k, stamped);
  }

  /** Lands a prepared branch. */
  method LandReady(repo: Repository, seat: string, v: S.Vocabulary, stamp: Option<seq<S.Trailer>>, ghost s: Seat,
                   ghost work: Meta)
    returns (err: Error, ghost k: nat, ghost l: nat, ghost b: nat)
    requires repo.Valid() && seat in repo.world.seats && Ready(s, repo.world, repo.world.seats[seat], work)
    modifies repo
    ensures repo.Continues()
    ensures LandingEnd(s, repo.world, repo.world.seats[seat], err, k, l, b, work, v, stamp)
  {
    ghost var w1, s1 := repo.world, repo.world.seats[seat];
    err, k, l, b := StampAndLand(repo, seat, v, stamp);
    repo.Counted(seat);
    ReadyEnd(s, w1, s1, repo.world, repo.world.seats[seat], err, k, l, b, work, v, stamp);
  }

  /** Commits, rebases, verifies, stamps, gates and fast-forwards a seat branch. k counts the
      commands before its first gate, or all of them. */
  method LandKnown(repo: Repository, seat: string, work: Meta, v: S.Vocabulary, stamp: Option<seq<S.Trailer>>)
    returns (err: Error, ghost k: nat, ghost l: nat, ghost b: nat)
    requires repo.Valid() && MetaOk(work) && seat in repo.world.seats
    modifies repo
    ensures repo.Continues()
    ensures LandingEnd(old(repo.world).seats[seat], repo.world, repo.world.seats[seat], err, k, l, b, work, v,
                       stamp)
  {
    ghost var s := repo.world.seats[seat];
    err := Prepare(repo, seat, work);
    if err.Some? {
      k, l, b := |repo.world.seats[seat].log|, 0, 0;
      NotPrepared(s, repo.world, repo.world.seats[seat], err, work, v, stamp);
      return;
    }
    err, k, l, b := LandReady(repo, seat, v, stamp, s, work);
  }

  /** Lands a seat branch, with any steps of other seats in between. */
  method LandBranch(repo: Repository, seat: string, resolved: bool, work: Meta, v: S.Vocabulary,
                    stamp: Option<seq<S.Trailer>>)
    returns (outcome: Outcome, err: Error, ghost k: nat, ghost l: nat, ghost b: nat)
    requires repo.Valid() && MetaOk(work)
    modifies repo
    ensures repo.Continues() && outcome == OutcomeOf(err)
    ensures seat !in old(repo.world).seats || !resolved ==>
      outcome == OutcomeFailed && repo.world == old(repo.world)
    ensures seat in old(repo.world).seats && resolved ==>
      LandingEnd(old(repo.world).seats[seat], repo.world, repo.world.seats[seat], err, k, l, b, work, v, stamp)
  {
    k, l, b := 0, 0, 0;
    if !resolved {
      err := Some({Unresolved});
      return OutcomeOf(err), err, k, l, b;
    }
    if seat !in repo.world.seats {
      err := Some({Other});
      return OutcomeOf(err), err, k, l, b;
    }
    err, k, l, b := LandKnown(repo, seat, work, v, stamp);
    return OutcomeOf(err), err, k, l, b;
  }
}
