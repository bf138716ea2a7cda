/** Stamping the commits of a branch (internal/land/replay.go): reading the range, replaying it
    under new messages on a detached HEAD, publishing the result, and rolling back. */
module Replay {
  import opened Text
  import opened Git
  import opened Repo
  import S = Stamp

  /** The counts after one refused command, or none: git spoke of a conflict exactly when the error is
      one. */
  function Told(t: Tally, err: Error): Tally {
    t.(conflicts := t.conflicts + if err.Some? && Conflict in err.value then 1 else 0,
       refusals := t.refusals + if err.Some? then 1 else 0)
  }

  /** No gate, no fast-forward and nothing landed, with the conflicts of one error. */
  ghost predicate Bounded(s: Seat, s': Seat, err: Error) {
    s'.landed == s.landed
    && s'.tally.(refusals := s.tally.refusals) == Told(s.tally, err).(refusals := s.tally.refusals)
    && s.tally.refusals <= s'.tally.refusals && s.log <= s'.log
  }

  /** What every stage before the gate keeps. It fails if and only if some command of it was refused
      or answered with no, and then blames no gate. */
  ghost predicate Stage(s: Seat, s': Seat, err: Error) {
    Bounded(s, s', err) && (err.None? <==> s'.tally.refusals == s.tally.refusals)
    && (err.Some? ==> GateFailed !in err.value && |s.log| < |s'.log| && Plain(s'.log[|s'.log| - 1].command))
  }

  /** The seat only read. */
  ghost predicate OnlyRead(s: Seat, s': Seat) {
    s.log <= s'.log && s'.(log := s.log) == s
  }

  /** The last command was refused, and that stopped it. */
  ghost predicate Stopped(s: Seat, s': Seat) {
    s.log < s'.log && s'.(tally := s.tally, log := s.log) == s && s'.tally == Told(s.tally, Some({Other}))
    && s'.log[|s'.log| - 1].command == Query(false)
  }

  lemma StillReading(s: Seat, s1: Seat, s2: Seat)
    requires OnlyRead(s, s1)
    ensures OnlyRead(s1, s2) ==> OnlyRead(s, s2)
    ensures Stopped(s1, s2) ==> Stopped(s, s2)
  {
  }

  // ------------------------------------------------------------ one commit

  function Restamped(v: S.Vocabulary, meta: Meta, trailers: seq<S.Trailer>): Meta {
    meta.(message := S.Applied(v, meta.message, trailers))
  }

  predicate Differs(v: S.Vocabulary, meta: Meta, trailers: seq<S.Trailer>) {
    S.Applied(v, meta.message, trailers) != meta.message
  }

  /** Two commits with the same parents, author and date. */
  ghost predicate SameButMessage(commits: seq<Commit>, c: nat, c': nat) {
    c < |commits| && c' < |commits| && commits[c'].parents == commits[c].parents
    && commits[c'].meta == commits[c].meta.(message := commits[c'].meta.message)
  }

  lemma AmendKeeps(start: World, w: World, seat: string, message: string)
    requires seat in start.seats && seat in w.seats && start.seats[seat] == w.seats[seat] && start.commits <= w.commits
    requires start.seats[seat].tip < |start.commits| && start.seats[seat].HeadCommit() < |start.commits|
    ensures var s, w' := w.seats[seat], Amended(w, seat, Some(message));
            var s' := w'.seats[seat];
            Stage(s, s', None) && |s'.log| == |s.log| + 1 && s'.head.OnBranch? == s.head.OnBranch?
            && SameButMessage(w'.commits, s.tip, s'.tip) && (s.head == OnBranch ==> s'.tip != s.tip)
  {
  }

  /** Amends the commit in the worktree under some other message. */
  method AmendHead(repo: Repository, seat: string) returns (err: Error)
    requires repo.Valid() && seat in repo.world.seats
    modifies repo
    ensures repo.Continues()
    ensures var s, s' := old(repo.world).seats[seat], repo.world.seats[seat];
            Stage(s, s', err)
            && if err.Some? then Stopped(s, s')
               else
                 SameButMessage(repo.world.commits, s.tip, s'.tip) && s'.head.OnBranch? == s.head.OnBranch?
                 && (s.head == OnBranch ==> s'.tip != s.tip)
  {
    var rewritten: string := *;
    ghost var shown := repo.world;
    HeadKnown(shown, seat);
    var made, before := repo.Amend(seat, Some(rewritten));
    if !made { return Some({Other}); }
    AmendKeeps(shown, before, seat, rewritten);
    return None;
  }

  /** Amends the commit in the worktree unless stamping would leave the branch message alone. Git
      writes the trailers; everything but the message is kept. */
  method StampHead(repo: Repository, seat: string, v: S.Vocabulary, trailers: seq<S.Trailer>) returns (err: Error)
    requires repo.Valid() && seat in repo.world.seats
    modifies repo
    ensures repo.Continues()
    ensures var s, s' := old(repo.world).seats[seat], repo.world.seats[seat];
            Stage(s, s', err)
            && if err.Some? then Stopped(s, s')
               else
                 SameButMessage(repo.world.commits, s.tip, s'.tip) && s'.head.OnBranch? == s.head.OnBranch?
                 && (s.head == OnBranch && s'.tip == s.tip ==>
                       !Differs(v, repo.world.commits[s.tip].meta, trailers))
  {
    HeadKnown(repo.world, seat);
    var tip := repo.world.seats[seat].tip;
    var meta := repo.Show(seat, tip);
    if meta.None? { return Some({Other}); }
    var message := meta.value.message;
    var stamped := S.Apply(v, message, trailers);
    if stamped == message { return None; }
    err := AmendHead(repo, seat);
  }

  /** Message and identity of one commit; fails on an unreadable or malformed one. */
  method ReadCommit(repo: Repository, seat: string, rev: nat) returns (meta: Option<Meta>)
    requires repo.Valid() && seat in repo.world.seats && rev < |repo.world.commits|
    modifies repo
    ensures repo.Continues()
    ensures var s, s' := old(repo.world).seats[seat], repo.world.seats[seat];
            if meta.None? then Stopped(s, s') else OnlyRead(s, s')
    ensures meta.Some? ==> meta.value == old(repo.world).commits[rev].meta
  {
    var text := repo.Show(seat, rev);
    if text.None? { return None; }
    var author := repo.ShowAuthor(seat, rev);
    if author.None? { return None; }
    return Some(Meta(author.value.name, author.value.email, author.value.date, text.value.message));
  }

  // ------------------------------------------------------------ reading the range

  predicate AnyChange(v: S.Vocabulary, metas: seq<Meta>, trailers: seq<S.Trailer>) {
    metas != []
    && (AnyChange(v, metas[..|metas| - 1], trailers) || Differs(v, metas[|metas| - 1], trailers))
  }

  ghost predicate MetasOf(commits: seq<Commit>, revs: seq<nat>, metas: seq<Meta>) {
    |metas| <= |revs|
    && forall i | 0 <= i < |metas| :: revs[i] < |commits| && metas[i] == commits[revs[i]].meta
  }

  lemma MetasOfSnoc(v: S.Vocabulary, commits: seq<Commit>, revs: seq<nat>, metas: seq<Meta>, meta: Meta,
                    trailers: seq<S.Trailer>)
    requires |metas| < |revs| && MetasOf(commits, revs, metas)
    requires revs[|metas|] < |commits| && meta == commits[revs[|metas|]].meta
    ensures MetasOf(commits, revs, metas + [meta])
    ensures AnyChange(v, metas + [meta], trailers) <==> AnyChange(v, metas, trailers) || Differs(v, meta, trailers)
  {
    assert (metas + [meta])[..|metas|] == metas;
  }

  lemma {:induction false} NoChange(v: S.Vocabulary, metas: seq<Meta>, trailers: seq<S.Trailer>, i: nat)
    requires !AnyChange(v, metas, trailers) && i < |metas|
    ensures Restamped(v, metas[i], trailers) == metas[i]
  {
    if i < |metas| - 1 { NoChange(v, metas[..|metas| - 1], trailers, i); }
  }

  method ReadOne(repo: Repository, seat: string, rev: nat, v: S.Vocabulary, trailers: seq<S.Trailer>)
    returns (meta: Option<Meta>, differs: bool)
    requires repo.Valid() && seat in repo.world.seats && rev < |repo.world.commits|
    modifies repo
    ensures repo.Continues()
    ensures var s, s' := old(repo.world).seats[seat], repo.world.seats[seat];
            if meta.None? then Stopped(s, s') else OnlyRead(s, s')
    ensures meta.Some? ==> meta.value == old(repo.world).commits[rev].meta
    ensures meta.Some? ==> differs == Differs(v, meta.value, trailers)
  {
    differs := false;
    meta := ReadCommit(repo, seat, rev);
    if meta.Some? {
      var stamped := S.Apply(v, meta.value.message, trailers);
      differs := stamped != meta.value.message;
    }
  }

  /** Reads every listed commit and reports whether stamping would change any message. */
  method ReplayCommits(repo: Repository, seat: string, revs: seq<nat>, v: S.Vocabulary, trailers: seq<S.Trailer>)
    returns (replay: Option<seq<Meta>>, changed: bool)
    requires repo.Valid() && seat in repo.world.seats
    requires forall i | 0 <= i < |revs| :: revs[i] < |repo.world.commits|
    modifies repo
    ensures repo.Continues()
    ensures var s, s' := old(repo.world).seats[seat], repo.world.seats[seat];
            if replay.None? then Stopped(s, s') else OnlyRead(s, s')
    ensures replay.Some? ==> |replay.value| == |revs| && MetasOf(old(repo.world).commits, revs, replay.value)
    ensures replay.Some? ==> changed == AnyChange(v, replay.value, trailers)
  {
    ghost var commits, s := repo.world.commits, repo.world.seats[seat];
    var metas: seq<Meta> := [];
    changed := false;
    for n := 0 to |revs|
      invariant repo.Continues() && OnlyRead(s, repo.world.seats[seat])
      invariant |metas| == n && MetasOf(commits, revs, metas)
      invariant changed == AnyChange(v, metas, trailers)
    {
      ghost var s1 := repo.world.seats[seat];
      var meta, differs := ReadOne(repo, seat, revs[n], v, trailers);
      StillReading(s, s1, repo.world.seats[seat]);
      if meta.None? { return None, false; }
      MetasOfSnoc(v, commits, revs, metas, meta.value, trailers);
      metas := metas + [meta.value];
      changed := changed || differs;
    }
    return Some(metas), changed;
  }

  // ------------------------------------------------------------ rolling back

  /** The commands that undo a stamping attempt, and what they leave. A branch that had moved is
      forced back while HEAD is still detached, otherwise the branch is checked out first. */
  ghost predicate Restored(s: Seat, s': Seat, tip: nat, pickInProgress: bool, branchMoved: bool) {
    var n := |s.log| + if pickInProgress then 1 else 0;
    s.log <= s'.log && |s'.log| == n + 2 && (pickInProgress ==> s'.log[|s.log|].command.Query?)
    && var first, second := s'.log[n].command, s'.log[n + 1].command;
       if branchMoved then
         first.Force? && first.target == tip && second.Checkout? && s'.tip == if first.done then tip else s.tip
       else first.Checkout? && second.Force? && second.target == tip && s'.tip == tip
  }

  /** Undoes a stamping attempt. */
  method RestoreStamp(repo: Repository, seat: string, tip: nat, pickInProgress: bool, branchMoved: bool)
    requires repo.Valid() && seat in repo.world.seats && tip < |repo.world.commits|
    requires !branchMoved ==> repo.world.seats[seat].tip == tip
    modifies repo
    ensures repo.Continues()
    ensures var s, s' := old(repo.world).seats[seat], repo.world.seats[seat];
            Bounded(s, s', None) && Restored(s, s', tip, pickInProgress, branchMoved)
  {
    if pickInProgress { var aborted := repo.Ask(seat); }
    if branchMoved { ForceAndCheckOut(repo, seat, tip); } else { CheckOutAndForce(repo, seat, tip); }
  }

  /** HEAD is still detached, so the branch can be forced. */
  method ForceAndCheckOut(repo: Repository, seat: string, tip: nat)
    requires repo.Valid() && seat in repo.world.seats && tip < |repo.world.commits|
    modifies repo
    ensures repo.Continues()
    ensures var s, s' := old(repo.world).seats[seat], repo.world.seats[seat];
            Bounded(s, s', None) && Restored(s, s', tip, false, true)
  {
    var forced := repo.BranchForce(seat, tip);
    var attached := repo.CheckoutBranch(seat);
  }

  method CheckOutAndForce(repo: Repository, seat: string, tip: nat)
    requires repo.Valid() && seat in repo.world.seats && tip < |repo.world.commits|
    requires repo.world.seats[seat].tip == tip
    modifies repo
    ensures repo.Continues()
    ensures var s, s' := old(repo.world).seats[seat], repo.world.seats[seat];
            Bounded(s, s', None) && Restored(s, s', tip, false, false)
  {
    var attached := repo.CheckoutBranch(seat);
    var forced := repo.BranchForce(seat, tip);
  }

  /** The log ends in a rollback that git refused: the branch had moved away from tip, checking
      it out failed, and forcing it back to tip failed too. */
  predicate RollbackRefused(log: seq<Record>, tip: nat) {
    var n := |log|;
    n >= 4
    && log[n - 4].command.Force? && log[n - 4].command.done && log[n - 4].command.target != tip
    && log[n - 3].command == Checkout(false)
    && log[n - 2].command == Force(tip, false)
    && log[n - 1].command.Checkout?
  }

  /** The last two commands, from command i on, check the branch out and force it. */
  predicate Rollback(log: seq<Record>, i: nat) {
    |log| == i + 2 && log[i].command.Checkout? && log[i + 1].command.Force?
  }

  /** Command i broke the stamping off: what follows is its rollback, or nothing after a command that
      only read. */
  predicate BrokeAt(log: seq<Record>, i: nat) {
    i < |log|
    && match log[i].command
       case Query(done) => !done && (|log| == i + 1 || Rollback(log, i + 1))
       case Pick(exit) => exit != Ok && i + 1 < |log| && log[i + 1].command.Query? && Rollback(log, i + 2)
       case Force(_, done) => !done && Rollback(log, i + 1)
       case Checkout(done) =>
         !done && |log| == i + 3 && log[i + 1].command.Force? && log[i + 2].command.Checkout?
       case _ => false
  }

  /** Some command from from on was refused and broke the stamping off. */
  ghost predicate StampRefused(log: seq<Record>, from: nat) {
    exists i :: from <= i && BrokeAt(log, i)
  }

  /** After a failure, which some refused command of this very attempt caused, the branch is at its
      entry tip unless, and only unless, git refused the rollback too. */
  ghost predicate RolledBack(s: Seat, s': Seat) {
    StampRefused(s'.log, |s.log|)
    && (s'.tip == s.tip <==> !RollbackRefused(s'.log, s.tip))
    && (RollbackRefused(s'.log, s.tip) ==> |s'.log| >= |s.log| + 4)
  }

  /** The last command was refused before the branch moved. */
  predicate Broken(log: seq<Record>, pickInProgress: bool) {
    log != []
    && match log[|log| - 1].command
       case Query(done) => !done && !pickInProgress
       case Pick(exit) => exit != Ok && pickInProgress
       case Force(_, done) => !done && !pickInProgress
       case _ => false
  }

  /** A branch that had not moved is rolled back whatever git answers. */
  lemma NotMovedRolledBack(s: Seat, s1: Seat, s': Seat, pickInProgress: bool)
    requires s.log < s1.log && Broken(s1.log, pickInProgress) && Restored(s1, s', s.tip, pickInProgress, false)
    ensures RolledBack(s, s') && |s.log| < |s'.log| && Plain(s'.log[|s'.log| - 1].command)
  {
    assert BrokeAt(s'.log, |s1.log| - 1);
  }

  /** A branch that had moved is rolled back exactly when git forces it back. */
  lemma MovedRolledBack(s: Seat, moved: Seat, left: Seat, s': Seat, at: nat, at': nat)
    requires s.head.Detached? && s.HeadCommit() != s.tip
    requires moved == s.Moved(s.HeadCommit()).Noted(Force(s.HeadCommit(), true), at)
    requires left == moved.Noted(Checkout(false), at') && Restored(left, s', s.tip, false, true)
    requires Bounded(left, s', None)
    ensures RolledBack(s, s') && Stage(s, s', Some({Other}))
  {
    assert BrokeAt(s'.log, |left.log| - 1);
  }

  /** The branch has moved to the replayed HEAD and is checked out. */
  lemma Published(s: Seat, moved: Seat, s': Seat, at: nat, at': nat)
    requires moved == s.Moved(s.HeadCommit()).Noted(Force(s.HeadCommit(), true), at)
    requires s' == moved.(head := OnBranch).Noted(Checkout(true), at')
    ensures Stage(s, s', None) && s'.tip == s.HeadCommit() && s'.head == OnBranch
  {
  }

  /** Git can refuse all of it: in this run the branch moves from commit 0 to commit 1, its checkout
      fails, and so do the way back and the last checkout. */
  lemma RefusedRollbackExample() returns (run: seq<Entry>)
    ensures ValidRun(run) && |run| == 5 && "a" in run[0].world.seats && "a" in run[4].world.seats
    ensures run[0].world.seats["a"].tip == 0 && run[4].world.seats["a"].tip == 1
    ensures RollbackRefused(run[4].world.seats["a"].log, 0)
  {
    run := BranchMoves();
    run := Refused(run, Checkout(false));
    run := Refused(run, Force(0, false));
    run := Refused(run, Checkout(false));
  }

  lemma BranchMoves() returns (run: seq<Entry>)
    ensures ValidRun(run) && |run| == 2 && "a" in run[0].world.seats && run[0].world.seats["a"].tip == 0
    ensures "a" in run[1].world.seats && run[1].world.seats["a"].tip == 1
    ensures run[1].world.seats["a"].log == [Record(Force(1, true), run[1].world.integration, 1)]
  {
    var meta := Meta("", "", "", "");
    var s := Seat(0, Detached(1), None, [], Tally(0, 0, 0, 0), []);
    assert MetaOk(meta);
    var w := World([Git.Commit([], meta), Git.Commit([0], meta)], 0, map["a" := s]);
    run := [Entry("", Begin, w), Entry("a", Force(1, true), Put(w, "a", Force(1, true), s.Moved(1)))];
    assert StepAt(run, 1);
  }

  /** The run with one more command of the seat that git refuses. */
  lemma Refused(run: seq<Entry>, command: Command) returns (more: seq<Entry>)
    requires ValidRun(run) && "a" in run[|run| - 1].world.seats
    requires command == Checkout(false) || (command.Force? && !command.done)
    ensures ValidRun(more) && |more| == |run| + 1 && run <= more && "a" in more[|run|].world.seats
    ensures var s, s' := run[|run| - 1].world.seats["a"], more[|run|].world.seats["a"];
            s'.tip == s.tip
            && s'.log == s.log + [Record(command, run[|run| - 1].world.integration, s.tip)]
  {
    var w := run[|run| - 1].world;
    RunOk(run, |run| - 1);
    more := run + [Entry("a", command, Put(w, "a", command, w.seats["a"]))];
    forall i | 0 < i < |more|
      ensures StepAt(more, i)
    {
      if i < |run| { assert StepAt(run, i); }
    }
  }

  /** Moves the branch to the replayed HEAD and checks it out. */
  method Publish(repo: Repository, seat: string) returns (err: Error)
    requires repo.Valid() && seat in repo.world.seats
    requires repo.world.seats[seat].head.Detached?
    requires repo.world.seats[seat].HeadCommit() != repo.world.seats[seat].tip
    modifies repo
    ensures repo.Continues()
    ensures var s, s' := old(repo.world).seats[seat], repo.world.seats[seat];
            Stage(s, s', err) && (err.Some? ==> RolledBack(s, s'))
            && (err.None? ==> s'.tip == s.HeadCommit() && s'.head == OnBranch)
  {
    ghost var s := repo.world.seats[seat];
    var tip, head := repo.world.seats[seat].tip, repo.world.seats[seat].HeadCommit();
    HeadKnown(repo.world, seat);
    var moved := repo.BranchForce(seat, head);
    ghost var s1, at := repo.world.seats[seat], repo.world.integration;
    if !moved {
      RestoreStamp(repo, seat, tip, false, false);
      NotMovedRolledBack(s, s1, repo.world.seats[seat], false);
      return Some({Other});
    }
    err := CheckOutMoved(repo, seat, tip, s, at);
  }

  /** Checks the branch out that has just moved to the replayed HEAD. */
  method CheckOutMoved(repo: Repository, seat: string, tip: nat, ghost s: Seat, ghost at: nat) returns (err: Error)
    requires repo.Valid() && seat in repo.world.seats && tip == s.tip < |repo.world.commits|
    requires s.head.Detached? && s.HeadCommit() != tip
    requires repo.world.seats[seat] == s.Moved(s.HeadCommit()).Noted(Force(s.HeadCommit(), true), at)
    modifies repo
    ensures repo.Continues()
    ensures var s' := repo.world.seats[seat];
            Stage(s, s', err) && (err.Some? ==> RolledBack(s, s'))
            && (err.None? ==> s'.tip == s.HeadCommit() && s'.head == OnBranch)
  {
    ghost var s1 := repo.world.seats[seat];
    var attached := repo.CheckoutBranch(seat);
    ghost var s2, at' := repo.world.seats[seat], repo.world.integration;
    if attached {
      Published(s, s1, s2, at, at');
      return None;
    }
    RestoreStamp(repo, seat, tip, false, true);
    MovedRolledBack(s, s1, s2, repo.world.seats[seat], at, at');
    return Some({Other});
  }

  // ------------------------------------------------------------ replaying the range

  /** A chain of new commits on base, each carrying the restamped metadata of what it copies. */
  ghost predicate Copies(commits: seq<Commit>, base: nat, ids: seq<nat>,
                         v: S.Vocabulary, replay: seq<Meta>, trailers: seq<S.Trailer>, first: nat)
  {
    IsChain(commits, base, ids) && |ids| <= |replay|
    && forall k | 0 <= k < |ids| ::
         first <= ids[k] < |commits| && commits[ids[k]].meta == Restamped(v, replay[k], trailers)
  }

  /** The commits replayed so far, with HEAD at the last of them. */
  ghost predicate Replaying(w: World, s: Seat, base: nat, ids: seq<nat>,
                            v: S.Vocabulary, replay: seq<Meta>, trailers: seq<S.Trailer>, first: nat)
  {
    Copies(w.commits, base, ids, v, replay, trailers, first) && s.head == Detached(Below(base, ids, |ids|))
  }

  /** Only HEAD moved, and it stays detached. */
  ghost predicate OnlyHead(s: Seat, s': Seat, err: Error) {
    s.log <= s'.log && s'.(tally := s.tally, log := s.log) == s.(head := s'.head) && s'.head.Detached?
    && s'.tally == Told(s.tally, err) && (err.Some? ==> GateFailed !in err.value)
  }

  lemma OnlyHeadAfter(s: Seat, s1: Seat, s': Seat, err: Error)
    requires OnlyHead(s, s1, None) && OnlyHead(s1, s', err)
    ensures OnlyHead(s, s', err)
  {
  }

  lemma CopyOne(commits: seq<Commit>, more: seq<Commit>, base: nat, ids: seq<nat>,
                v: S.Vocabulary, replay: seq<Meta>, trailers: seq<S.Trailer>, first: nat)
    requires commits <= more && first <= |more| && |ids| < |replay|
    requires Copies(commits, base, ids, v, replay, trailers, first)
    ensures var next := Git.Commit([Below(base, ids, |ids|)], Restamped(v, replay[|ids|], trailers));
            Copies(more + [next], base, ids + [|more|], v, replay, trailers, first)
  {
    ChainStable(commits, more, base, ids);
    ChainExtend(more, base, ids, Restamped(v, replay[|ids|], trailers));
    var next := Git.Commit([Below(base, ids, |ids|)], Restamped(v, replay[|ids|], trailers));
    var longer := ids + [|more|];
    forall k | 0 <= k < |longer|
      ensures first <= longer[k] <= |more|
      ensures (more + [next])[longer[k]].meta == Restamped(v, replay[k], trailers)
    {
      if k < |ids| {
        assert longer[k] == ids[k] && (more + [next])[ids[k]] == commits[ids[k]];
      } else {
        assert longer[k] == |more| && (more + [next])[|more|] == next;
      }
    }
  }

  lemma ReplayedOne(w: World, before: World, seat: string, base: nat, ids: seq<nat>,
                    v: S.Vocabulary, replay: seq<Meta>, trailers: seq<S.Trailer>, first: nat)
    requires seat in w.seats && seat in before.seats && OnlyRead(w.seats[seat], before.seats[seat])
    requires w.commits <= before.commits && first <= |before.commits| && |ids| < |replay|
    requires Replaying(w, w.seats[seat], base, ids, v, replay, trailers, first)
    requires before.seats[seat].HeadCommit() < |before.commits|
    ensures var w' := WithCommit(before, seat, false, Restamped(v, replay[|ids|], trailers));
            Replaying(w', w'.seats[seat], base, ids + [|before.commits|], v, replay, trailers, first)
            && OnlyHead(w.seats[seat], w'.seats[seat], None)
  {
    CopyOne(w.commits, before.commits, base, ids, v, replay, trailers, first);
  }

  /** Nothing was committed. */
  lemma NotReplayed(s: Seat, before: Seat, s': Seat, at: nat)
    requires OnlyRead(s, before) && s.head.Detached? && s' == before.Noted(Query(false), at)
    ensures OnlyHead(s, s', Some({Other})) && s.log < s'.log && Broken(s'.log, false)
  {
  }

  lemma ReplayingStable(w: World, s: Seat, w1: World, s1: Seat, base: nat, ids: seq<nat>,
                        v: S.Vocabulary, replay: seq<Meta>, trailers: seq<S.Trailer>, first: nat)
    requires w.commits <= w1.commits && OnlyRead(s, s1)
    requires Replaying(w, s, base, ids, v, replay, trailers, first)
    ensures Replaying(w1, s1, base, ids, v, replay, trailers, first) && OnlyHead(s, s1, None)
  {
    ChainStable(w.commits, w1.commits, base, ids);
  }

  /** Commits the change that was picked under its new message. */
  method CommitPicked(repo: Repository, seat: string, v: S.Vocabulary, replay: seq<Meta>, trailers: seq<S.Trailer>,
                      ghost base: nat, ghost ids: seq<nat>, ghost first: nat, n: nat)
    returns (err: Error, ghost id: nat)
    requires repo.Valid() && seat in repo.world.seats && n == |ids| < |replay| && MetaOk(replay[n])
    requires Replaying(repo.world, repo.world.seats[seat], base, ids, v, replay, trailers, first)
    requires first <= |repo.world.commits|
    modifies repo
    ensures repo.Continues()
    ensures OnlyHead(old(repo.world).seats[seat], repo.world.seats[seat], err)
    ensures err.None? ==> Replaying(repo.world, repo.world.seats[seat], base, ids + [id], v, replay, trailers, first)
    ensures err.Some? ==>
      old(repo.world).seats[seat].log < repo.world.seats[seat].log && Broken(repo.world.seats[seat].log, false)
  {
    id := 0;
    var message := S.Apply(v, replay[n].message, trailers);
    var made, before := repo.Commit(seat, false, replay[n].(message := message));
    if !made {
      NotReplayed(old(repo.world).seats[seat], before.seats[seat], repo.world.seats[seat], before.integration);
      return Some({Other}), id;
    }
    id := |before.commits|;
    ReplayedOne(old(repo.world), before, seat, base, ids, v, replay, trailers, first);
    return None, id;
  }

  /** Writes the new message to a file and commits the change under it. */
  method WriteAndCommit(repo: Repository, seat: string, v: S.Vocabulary, replay: seq<Meta>, trailers: seq<S.Trailer>,
                        ghost base: nat, ghost ids: seq<nat>, ghost first: nat, n: nat)
    returns (err: Error, ghost id: nat)
    requires repo.Valid() && seat in repo.world.seats && n == |ids| < |replay| && MetaOk(replay[n])
    requires Replaying(repo.world, repo.world.seats[seat], base, ids, v, replay, trailers, first)
    requires first <= |repo.world.commits|
    modifies repo
    ensures repo.Continues()
    ensures OnlyHead(old(repo.world).seats[seat], repo.world.seats[seat], err)
    ensures err.None? ==> Replaying(repo.world, repo.world.seats[seat], base, ids + [id], v, replay, trailers, first)
    ensures err.Some? ==>
      old(repo.world).seats[seat].log < repo.world.seats[seat].log && Broken(repo.world.seats[seat].log, false)
  {
    ghost var w, s := repo.world, repo.world.seats[seat];
    var written := repo.WriteMessage(seat);
    ghost var s1 := repo.world.seats[seat];
    if !written { return Some({Other}), 0; }
    ReplayingStable(w, s, repo.world, s1, base, ids, v, replay, trailers, first);
    err, id := CommitPicked(repo, seat, v, replay, trailers, base, ids, first, n);
    OnlyHeadAfter(s, s1, repo.world.seats[seat], err);
  }

  lemma PickedOnly(s: Seat, exit: Exit, at: nat)
    requires s.head.Detached?
    ensures exit == Ok ==> OnlyRead(s, s.Noted(Pick(exit), at))
    ensures exit != Ok ==>
      OnlyHead(s, s.Noted(Pick(exit), at), PickError(exit)) && Broken(s.Noted(Pick(exit), at).log, true)
  {
  }

  function PickError(exit: Exit): Error {
    match exit
    case Ok => None
    case Failed(conflict, _) => Some(if conflict then {Conflict, Other} else {Other})
  }

  /** Picks one change onto the detached HEAD and commits it under its new message. */
  method ReplayOne(repo: Repository, seat: string, v: S.Vocabulary, replay: seq<Meta>, trailers: seq<S.Trailer>,
                   ghost base: nat, ghost ids: seq<nat>, ghost first: nat, n: nat)
    returns (err: Error, pickInProgress: bool, ghost id: nat)
    requires repo.Valid() && seat in repo.world.seats && n == |ids| < |replay| && MetaOk(replay[n])
    requires Replaying(repo.world, repo.world.seats[seat], base, ids, v, replay, trailers, first)
    requires first <= |repo.world.commits|
    modifies repo
    ensures repo.Continues()
    ensures OnlyHead(old(repo.world).seats[seat], repo.world.seats[seat], err)
    ensures err.None? ==> Replaying(repo.world, repo.world.seats[seat], base, ids + [id], v, replay, trailers, first)
    ensures err.Some? ==>
      old(repo.world).seats[seat].log < repo.world.seats[seat].log
      && Broken(repo.world.seats[seat].log, pickInProgress)
  {
    id := 0;
    ghost var w, s := repo.world, repo.world.seats[seat];
    var exit := repo.CherryPick(seat);
    PickedOnly(s, exit, repo.world.integration);
    if exit != Ok { return PickError(exit), true, id; }
    ghost var s1 := repo.world.seats[seat];
    ReplayingStable(w, s, repo.world, s1, base, ids, v, replay, trailers, first);
    pickInProgress := false;
    err, id := WriteAndCommit(repo, seat, v, replay, trailers, base, ids, first, n);
    OnlyHeadAfter(s, s1, repo.world.seats[seat], err);
  }

  /** Replays the listed changes, oldest first, on the detached HEAD at base. */
  method Replay(repo: Repository, seat: string, v: S.Vocabulary, replay: seq<Meta>, trailers: seq<S.Trailer>,
                ghost base: nat, ghost first: nat)
    returns (err: Error, pickInProgress: bool, ghost ids: seq<nat>)
    requires repo.Valid() && seat in repo.world.seats && repo.world.seats[seat].head == Detached(base)
    requires first <= |repo.world.commits| && forall i | 0 <= i < |replay| :: MetaOk(replay[i])
    modifies repo
    ensures repo.Continues() && OnlyHead(old(repo.world).seats[seat], repo.world.seats[seat], err)
    ensures err.None? ==> |ids| == |replay|
    ensures err.Some? ==>
      old(repo.world).seats[seat].log < repo.world.seats[seat].log
      && Broken(repo.world.seats[seat].log, pickInProgress)
    ensures err.None? ==> Replaying(repo.world, repo.world.seats[seat], base, ids, v, replay, trailers, first)
  {
    ghost var s := repo.world.seats[seat];
    ids := [];
    pickInProgress := false;
    for n := 0 to |replay|
      invariant repo.Continues() && |ids| == n && first <= |repo.world.commits|
      invariant Replaying(repo.world, repo.world.seats[seat], base, ids, v, replay, trailers, first)
      invariant OnlyHead(s, repo.world.seats[seat], None)
    {
      ghost var id, s1 := 0, repo.world.seats[seat];
      err, pickInProgress, id := ReplayOne(repo, seat, v, replay, trailers, base, ids, first, n);
      OnlyHeadAfter(s, s1, repo.world.seats[seat], err);
      if err.Some? { return; }
      ids := ids + [id];
    }
    err := None;
  }

  // ------------------------------------------------------------ stampRange

  /** base..tip' lists the same commits as exclude..tip, in the same order and with the same
      author and date, each under the stamped form of its message. */
  ghost predicate StampedRange(commits: seq<Commit>, exclude: nat, tip: nat, base: nat, tip': nat,
                               v: S.Vocabulary, trailers: seq<S.Trailer>)
  {
    CommitsOk(commits) && exclude < |commits| && tip < |commits| && base < |commits| && tip' < |commits|
    && var revs, ids := Range(commits, exclude, tip), Range(commits, base, tip');
       |ids| == |revs|
       && forall k | 0 <= k < |revs| :: revs[k] < |commits| && ids[k] < |commits|
            && commits[ids[k]].meta == Restamped(v, commits[revs[k]].meta, trailers)
  }

  lemma StampedRangeStable(commits: seq<Commit>, more: seq<Commit>, exclude: nat, tip: nat, base: nat, tip': nat,
                           v: S.Vocabulary, trailers: seq<S.Trailer>)
    requires commits <= more && CommitsOk(more) && StampedRange(commits, exclude, tip, base, tip', v, trailers)
    ensures StampedRange(more, exclude, tip, base, tip', v, trailers)
  {
    RangeStable(commits, more, exclude, tip);
    RangeStable(commits, more, base, tip');
  }

  /** replay holds the metadata of the commits exclude..tip. */
  ghost predicate Read(commits: seq<Commit>, exclude: nat, tip: nat, replay: seq<Meta>) {
    CommitsOk(commits) && exclude < |commits| && tip < |commits|
    && |replay| == |Range(commits, exclude, tip)| && MetasOf(commits, Range(commits, exclude, tip), replay)
  }

  lemma UnchangedRange(commits: seq<Commit>, exclude: nat, tip: nat, v: S.Vocabulary, replay: seq<Meta>,
                       trailers: seq<S.Trailer>)
    requires Read(commits, exclude, tip, replay)
    ensures !AnyChange(v, replay, trailers) ==> StampedRange(commits, exclude, tip, exclude, tip, v, trailers)
  {
    if !AnyChange(v, replay, trailers) {
      var revs := Range(commits, exclude, tip);
      forall k | 0 <= k < |revs|
        ensures commits[revs[k]].meta == Restamped(v, commits[revs[k]].meta, trailers)
      {
        NoChange(v, replay, trailers, k);
      }
    }
  }

  /** tip ends a chain of restamped copies on base. */
  ghost predicate Rewritten(commits: seq<Commit>, base: nat, ids: seq<nat>, tip: nat,
                            v: S.Vocabulary, replay: seq<Meta>, trailers: seq<S.Trailer>)
  {
    base < |commits| && |ids| == |replay| > 0 && tip == ids[|ids| - 1]
    && Copies(commits, base, ids, v, replay, trailers, 0)
  }

  lemma ReplayedIsRewritten(w: World, s: Seat, base: nat, ids: seq<nat>, v: S.Vocabulary, replay: seq<Meta>,
                            trailers: seq<S.Trailer>, first: nat)
    requires Replaying(w, s, base, ids, v, replay, trailers, first) && |ids| == |replay| > 0 && base < |w.commits|
    ensures Rewritten(w.commits, base, ids, s.HeadCommit(), v, replay, trailers) && s.HeadCommit() >= first
  {
  }

  lemma RewrittenStable(commits: seq<Commit>, more: seq<Commit>, base: nat, ids: seq<nat>, tip: nat,
                        v: S.Vocabulary, replay: seq<Meta>, trailers: seq<S.Trailer>)
    requires commits <= more && Rewritten(commits, base, ids, tip, v, replay, trailers)
    ensures Rewritten(more, base, ids, tip, v, replay, trailers)
  {
    ChainStable(commits, more, base, ids);
  }

  lemma RewrittenRange(commits: seq<Commit>, exclude: nat, tip: nat, base: nat, ids: seq<nat>, tip': nat,
                       v: S.Vocabulary, replay: seq<Meta>, trailers: seq<S.Trailer>)
    requires Read(commits, exclude, tip, replay) && Rewritten(commits, base, ids, tip', v, replay, trailers)
    ensures StampedRange(commits, exclude, tip, base, tip', v, trailers) && LinearRange(commits, base, tip')
  {
    ChainIsRange(commits, base, ids);
    ChainIsLinear(commits, base, ids);
  }

  /** Replays a range on the detached HEAD, or rolls back. first counts the commits before it. */
  method ReplayOn(repo: Repository, seat: string, v: S.Vocabulary, replay: seq<Meta>, trailers: seq<S.Trailer>,
                  tip: nat, ghost base: nat, ghost first: nat)
    returns (err: Error, ghost ids: seq<nat>)
    requires repo.Valid() && seat in repo.world.seats && repo.world.seats[seat].tip == tip < first
    requires repo.world.seats[seat].head == Detached(base) && base < first == |repo.world.commits|
    requires |replay| > 0 && forall i | 0 <= i < |replay| :: MetaOk(replay[i])
    modifies repo
    ensures repo.Continues()
    ensures var s, s' := old(repo.world).seats[seat], repo.world.seats[seat];
            if err.Some? then Stage(s, s', err) && RolledBack(s, s')
            else
              OnlyHead(s, s', None) && s'.HeadCommit() >= first
              && Rewritten(repo.world.commits, base, ids, s'.HeadCommit(), v, replay, trailers)
  {
    ghost var s := repo.world.seats[seat];
    var pick;
    err, pick, ids := Replay(repo, seat, v, replay, trailers, base, first);
    ghost var s1 := repo.world.seats[seat];
    if err.Some? {
      RestoreStamp(repo, seat, tip, pick, false);
      NotMovedRolledBack(s, s1, repo.world.seats[seat], pick);
      return;
    }
    ReplayedIsRewritten(repo.world, s1, base, ids, v, replay, trailers, first);
  }

  /** Replays a range on the detached HEAD and moves the branch there, or rolls back. */
  method RewriteOn(repo: Repository, seat: string, v: S.Vocabulary, replay: seq<Meta>, trailers: seq<S.Trailer>,
                   tip: nat)
    returns (err: Error, ghost ids: seq<nat>)
    requires repo.Valid() && seat in repo.world.seats && repo.world.seats[seat].tip == tip
    requires repo.world.seats[seat].head == Detached(repo.world.integration)
    requires |replay| > 0 && forall i | 0 <= i < |replay| :: MetaOk(replay[i])
    modifies repo
    ensures repo.Continues()
    ensures var s, s' := old(repo.world).seats[seat], repo.world.seats[seat];
            Stage(s, s', err) && (err.Some? ==> RolledBack(s, s'))
            && (err.None? ==>
                  s'.head == OnBranch
                  && Rewritten(repo.world.commits, old(repo.world).integration, ids, s'.tip, v, replay, trailers))
  {
    ghost var base := repo.world.integration;
    HeadKnown(repo.world, seat);
    err, ids := ReplayOn(repo, seat, v, replay, trailers, tip, base, |repo.world.commits|);
    if err.Some? { return; }
    ghost var commits, last := repo.world.commits, repo.world.seats[seat].HeadCommit();
    err := Publish(repo, seat);
    if err.None? { RewrittenStable(commits, repo.world.commits, base, ids, last, v, replay, trailers); }
  }

  /** Replays a range onto integration as it is now, or rolls back. The first command of a success
      is the checkout that says where the new range starts. */
  method Rewrite(repo: Repository, seat: string, v: S.Vocabulary, replay: seq<Meta>, trailers: seq<S.Trailer>,
                 tip: nat)
    returns (err: Error, ghost ids: seq<nat>)
    requires repo.Valid() && seat in repo.world.seats && repo.world.seats[seat].tip == tip
    requires |replay| > 0 && forall i | 0 <= i < |replay| :: MetaOk(replay[i])
    modifies repo
    ensures repo.Continues()
    ensures var s, s' := old(repo.world).seats[seat], repo.world.seats[seat];
            Stage(s, s', err) && (err.Some? ==> RolledBack(s, s'))
            && (err.None? ==>
                  s'.head == OnBranch && |s.log| < |s'.log| && s'.log[|s.log|].command == Detach
                  && var base := s'.log[|s.log|].integration;
                     base < |repo.world.commits| && Ancestor(repo.world.commits, base, repo.world.integration)
                     && Rewritten(repo.world.commits, base, ids, s'.tip, v, replay, trailers))
  {
    ids := [];
    HeadKnown(repo.world, seat);
    ghost var s := repo.world.seats[seat];
    var detached := repo.CheckoutDetach(seat);
    ghost var s1 := repo.world.seats[seat];
    if !detached {
      RestoreStamp(repo, seat, tip, false, false);
      NotMovedRolledBack(s, s1, repo.world.seats[seat], false);
      return Some({Other}), ids;
    }
    label Detached:
    err, ids := RewriteOn(repo, seat, v, replay, trailers, tip);
    repo.MovedForward@Detached();
  }

  /** The commits that the record says were listed, seen from a later world. */
  ghost predicate ListedIn(w: World, r: Record) {
    WorldOk(w) && r.integration < |w.commits| && r.tip < |w.commits| && r.command.List?
    && r.command.revs == Range(w.commits, r.integration, r.tip) && Ancestor(w.commits, r.integration, w.integration)
  }

  lemma ListedStable(w: World, w': World, r: Record)
    requires Forward(w, w') && ListedIn(w, r)
    ensures ListedIn(w', r)
  {
    RangeStable(w.commits, w'.commits, r.integration, r.tip);
    StillMerged(w, w', r.integration);
  }

  lemma StillMerged(w: World, w': World, c: nat)
    requires Forward(w, w') && c < |w.commits| && Ancestor(w.commits, c, w.integration)
    ensures Ancestor(w'.commits, c, w'.integration)
  {
    AncestorStable(w.commits, w'.commits, c, w.integration);
    AncestorTransitive(w'.commits, c, w.integration, w'.integration);
  }

  /** What command l of the seat listed is stamped as a whole: a range of several commits as a
      range of as many on integration as command b found it (l itself when no message had to
      change); a single commit by git, unless its message was stamped already; of an empty range
      there is nothing to stamp. */
  ghost predicate Stamped(w: World, s: Seat, l: nat, b: nat, v: S.Vocabulary, trailers: seq<S.Trailer>) {
    l <= b < |s.log| && ListedIn(w, s.log[l]) && (b == l || s.log[b].command == Detach)
    && var r, base := s.log[l], s.log[b].integration;
       base < |w.commits| && Ancestor(w.commits, base, w.integration)
       && if |r.command.revs| == 0 then s.tip == r.tip
          else if |r.command.revs| == 1 then
            SameButMessage(w.commits, r.tip, s.tip)
            && (s.head == OnBranch && s.tip == r.tip ==> !Differs(v, w.commits[s.tip].meta, trailers))
          else StampedRange(w.commits, r.integration, r.tip, base, s.tip, v, trailers)
  }

  /** What others do and what this seat runs without moving its branch leave it stamped. */
  lemma StampedStable(w: World, s: Seat, w': World, s': Seat, l: nat, b: nat, v: S.Vocabulary,
                      trailers: seq<S.Trailer>)
    requires Forward(w, w') && Stamped(w, s, l, b, v, trailers)
    requires s.log <= s'.log && s'.tip == s.tip && s'.head == s.head
    ensures Stamped(w', s', l, b, v, trailers)
  {
    var r, base := s.log[l], s.log[b].integration;
    ListedStable(w, w', r);
    StillMerged(w, w', base);
    if |r.command.revs| >= 2 {
      StampedRangeStable(w.commits, w'.commits, r.integration, r.tip, base, s.tip, v, trailers);
    }
  }

  lemma StoppedIsRolledBack(s: Seat, s': Seat)
    requires Stopped(s, s')
    ensures RolledBack(s, s') && Stage(s, s', Some({Other}))
  {
    assert BrokeAt(s'.log, |s'.log| - 1);
  }

  lemma UnchangedIsStamped(w: World, s: Seat, l: nat, v: S.Vocabulary, replay: seq<Meta>, trailers: seq<S.Trailer>)
    requires l < |s.log| && ListedIn(w, s.log[l]) && |s.log[l].command.revs| >= 2 && s.tip == s.log[l].tip
    requires Read(w.commits, s.log[l].integration, s.tip, replay)
    ensures !AnyChange(v, replay, trailers) ==> Stamped(w, s, l, l, v, trailers)
    ensures LinearRange(w.commits, s.log[l].integration, s.tip) ==> LinearBranch(w, s.tip)
  {
    UnchangedRange(w.commits, s.log[l].integration, s.tip, v, replay, trailers);
    KeptIsLinear(w, s.log[l]);
  }

  lemma KeptIsLinear(w: World, r: Record)
    requires ListedIn(w, r)
    ensures LinearRange(w.commits, r.integration, r.tip) ==> LinearBranch(w, r.tip)
  {
    if LinearRange(w.commits, r.integration, r.tip) {
      LinearLater(w.commits, w.commits, r.integration, r.tip, w.integration);
    }
  }

  lemma RewrittenIsStamped(w: World, s: Seat, l: nat, b: nat, ids: seq<nat>, v: S.Vocabulary, replay: seq<Meta>,
                           trailers: seq<S.Trailer>)
    requires l <= b < |s.log| && ListedIn(w, s.log[l]) && |s.log[l].command.revs| >= 2 && s.log[b].command == Detach
    requires Read(w.commits, s.log[l].integration, s.log[l].tip, replay)
    requires s.log[b].integration < |w.commits| && Ancestor(w.commits, s.log[b].integration, w.integration)
    requires Rewritten(w.commits, s.log[b].integration, ids, s.tip, v, replay, trailers)
    ensures Stamped(w, s, l, b, v, trailers) && LinearBranch(w, s.tip)
  {
    var base := s.log[b].integration;
    RewrittenRange(w.commits, s.log[l].integration, s.log[l].tip, base, ids, s.tip, v, replay, trailers);
    LinearLater(w.commits, w.commits, base, s.tip, w.integration);
  }

  /** How a stamping attempt ends: all of it is undone, or what command l listed is stamped, on a
      branch that is as checked out as before and linear when the listed range was. */
  ghost predicate StampEnd(s: Seat, w: World, s': Seat, err: Error, l: nat, b: nat, v: S.Vocabulary,
                           trailers: seq<S.Trailer>)
  {
    Stage(s, s', err)
    && if err.Some? then RolledBack(s, s')
       else
         Stamped(w, s', l, b, v, trailers) && (s.head == OnBranch ==> s'.head == OnBranch)
         && (LinearRange(w.commits, s'.log[l].integration, s'.log[l].tip) ==> LinearBranch(w, s'.tip))
  }

  lemma EndAfterReading(s: Seat, s1: Seat, w: World, s': Seat, err: Error, l: nat, b: nat,
                        v: S.Vocabulary, trailers: seq<S.Trailer>)
    requires OnlyRead(s, s1) && StampEnd(s1, w, s', err, l, b, v, trailers)
    ensures StampEnd(s, w, s', err, l, b, v, trailers)
  {
  }

  /** Command l of the seat listed its range. */
  ghost predicate Listing(w: World, s: Seat, l: nat, revs: seq<nat>) {
    l < |s.log| && ListedIn(w, s.log[l]) && s.log[l].command == List(revs) && s.log[l].tip == s.tip
  }

  lemma ListingStable(w: World, s: Seat, w': World, s': Seat, l: nat, revs: seq<nat>)
    requires Forward(w, w') && OnlyRead(s, s') && Listing(w, s, l, revs)
    ensures Listing(w', s', l, revs)
  {
    ListedStable(w, w', s.log[l]);
  }

  /** Reads the commits that command l listed. */
  method ReadRange(repo: Repository, seat: string, v: S.Vocabulary, trailers: seq<S.Trailer>,
                   revs: seq<nat>, ghost l: nat)
    returns (replay: Option<seq<Meta>>, changed: bool)
    requires repo.Valid() && seat in repo.world.seats && Listing(repo.world, repo.world.seats[seat], l, revs)
    modifies repo
    ensures repo.Continues() && Forward(old(repo.world), repo.world)
    ensures var s, s' := old(repo.world).seats[seat], repo.world.seats[seat];
            if replay.None? then Stopped(s, s') else OnlyRead(s, s') && Listing(repo.world, s', l, revs)
    ensures replay.Some? ==>
      var r := repo.world.seats[seat].log[l];
      Read(repo.world.commits, r.integration, r.tip, replay.value)
      && (forall i | 0 <= i < |replay.value| :: MetaOk(replay.value[i]))
      && changed == AnyChange(v, replay.value, trailers)
  {
    ghost var start, r := repo.world, repo.world.seats[seat].log[l];
    RangeAscends(start.commits, r.integration, r.tip, |start.commits|);
    replay, changed := ReplayCommits(repo, seat, revs, v, trailers);
    repo.MovedForward();
    if replay.Some? {
      ListingStable(start, start.seats[seat], repo.world, repo.world.seats[seat], l, revs);
      ReadMetas(start.commits, repo.world.commits, r.integration, r.tip, replay.value);
    }
  }

  lemma ReadMetas(commits: seq<Commit>, more: seq<Commit>, exclude: nat, tip: nat, replay: seq<Meta>)
    requires commits <= more && CommitsOk(more) && Read(commits, exclude, tip, replay)
    ensures Read(more, exclude, tip, replay) && forall i | 0 <= i < |replay| :: MetaOk(replay[i])
  {
    RangeStable(commits, more, exclude, tip);
    forall i | 0 <= i < |replay|
      ensures MetaOk(replay[i])
    {
      assert MetaOk(commits[Range(commits, exclude, tip)[i]].meta);
    }
  }

  /** Rewrites the range that command l listed and of which some message has to change. */
  method RewriteRange(repo: Repository, seat: string, v: S.Vocabulary, trailers: seq<S.Trailer>,
                      replay: seq<Meta>, tip: nat, ghost l: nat, ghost revs: seq<nat>)
    returns (err: Error, ghost b: nat)
    requires repo.Valid() && seat in repo.world.seats && repo.world.seats[seat].tip == tip
    requires Listing(repo.world, repo.world.seats[seat], l, revs) && |revs| >= 2
    requires Read(repo.world.commits, repo.world.seats[seat].log[l].integration, tip, replay)
    requires forall i | 0 <= i < |replay| :: MetaOk(replay[i])
    modifies repo
    ensures repo.Continues()
    ensures StampEnd(old(repo.world).seats[seat], repo.world, repo.world.seats[seat], err, l, b, v, trailers)
  {
    ghost var read, s := repo.world, repo.world.seats[seat];
    ghost var r := s.log[l];
    b := |s.log|;
    ghost var ids;
    err, ids := Rewrite(repo, seat, v, replay, trailers, tip);
    if err.None? {
      repo.MovedForward();
      ListedStable(read, repo.world, r);
      ReadMetas(read.commits, repo.world.commits, r.integration, tip, replay);
      RewrittenIsStamped(repo.world, repo.world.seats[seat], l, b, ids, v, replay, trailers);
    }
  }

  /** Rewrites a range of several commits unless every message is stamped already. */
  method StampMany(repo: Repository, seat: string, v: S.Vocabulary, trailers: seq<S.Trailer>,
                   revs: seq<nat>, tip: nat, ghost l: nat)
    returns (err: Error, ghost b: nat)
    requires repo.Valid() && seat in repo.world.seats && repo.world.seats[seat].tip == tip
    requires Listing(repo.world, repo.world.seats[seat], l, revs) && |revs| >= 2
    modifies repo
    ensures repo.Continues()
    ensures StampEnd(old(repo.world).seats[seat], repo.world, repo.world.seats[seat], err, l, b, v, trailers)
  {
    ghost var s := repo.world.seats[seat];
    b := l;
    var replay, changed := ReadRange(repo, seat, v, trailers, revs, l);
    ghost var read, s1 := repo.world, repo.world.seats[seat];
    if replay.None? {
      StoppedIsRolledBack(s, s1);
      return Some({Other}), b;
    }
    if !changed {
      UnchangedIsStamped(read, s1, l, v, replay.value, trailers);
      EndAfterReading(s, s1, read, s1, None, l, b, v, trailers);
      return None, b;
    }
    err, b := RewriteRange(repo, seat, v, trailers, replay.value, tip, l, revs);
    EndAfterReading(s, s1, repo.world, repo.world.seats[seat], err, l, b, v, trailers);
  }

  /** Stamps a branch with one commit of its own. */
  method StampSingle(repo: Repository, seat: string, v: S.Vocabulary, trailers: seq<S.Trailer>, tip: nat)
    returns (err: Error)
    requires repo.Valid() && seat in repo.world.seats && tip == repo.world.seats[seat].tip
    modifies repo
    ensures repo.Continues()
    ensures var s, s' := old(repo.world).seats[seat], repo.world.seats[seat];
            Stage(s, s', err) && (err.Some? ==> RolledBack(s, s'))
            && (err.None? ==>
                  SameButMessage(repo.world.commits, tip, s'.tip) && s'.head.OnBranch? == s.head.OnBranch?
                  && (s.head == OnBranch && s'.tip == s.tip ==>
                        !Differs(v, repo.world.commits[tip].meta, trailers)))
  {
    HeadKnown(repo.world, seat);
    ghost var s := repo.world.seats[seat];
    err := StampHead(repo, seat, v, trailers);
    ghost var s1 := repo.world.seats[seat];
    if err.Some? {
      RestoreStamp(repo, seat, tip, false, false);
      NotMovedRolledBack(s, s1, repo.world.seats[seat], false);
    }
  }

  /** The single commit of a linear branch is replaced by a commit with the same parents. */
  lemma AmendedIsLinear(w: World, r: Record, tip: nat)
    requires ListedIn(w, r) && |r.command.revs| == 1 && LinearRange(w.commits, r.integration, r.tip)
    requires SameButMessage(w.commits, r.tip, tip)
    ensures LinearBranch(w, tip)
  {
    if Ancestor(w.commits, r.tip, r.integration) { NothingAdded(w.commits, r.integration, r.tip); }
    ReplacedTipIsLinear(w.commits, r.integration, r.tip, tip);
    LinearLater(w.commits, w.commits, r.integration, tip, w.integration);
  }

  /** Stamps the range that command l listed. */
  method StampListed(repo: Repository, seat: string, v: S.Vocabulary, trailers: seq<S.Trailer>,
                     revs: seq<nat>, tip: nat, ghost l: nat)
    returns (err: Error, ghost b: nat)
    requires repo.Valid() && seat in repo.world.seats && repo.world.seats[seat].tip == tip
    requires Listing(repo.world, repo.world.seats[seat], l, revs) && |revs| >= 1
    modifies repo
    ensures repo.Continues()
    ensures StampEnd(old(repo.world).seats[seat], repo.world, repo.world.seats[seat], err, l, b, v, trailers)
  {
    if |revs| > 1 {
      err, b := StampMany(repo, seat, v, trailers, revs, tip, l);
      return;
    }
    ghost var start, r := repo.world, repo.world.seats[seat].log[l];
    b := l;
    err := StampSingle(repo, seat, v, trailers, tip);
    repo.MovedForward();
    ListedStable(start, repo.world, r);
    if err.None? && LinearRange(repo.world.commits, r.integration, r.tip) {
      AmendedIsLinear(repo.world, r, repo.world.seats[seat].tip);
    }
  }

  /** Stamping leaves out and invents no work: what the branch adds is what was listed. */
  lemma StampedWork(w: World, s: Seat, l: nat, b: nat, v: S.Vocabulary, trailers: seq<S.Trailer>)
    requires Stamped(w, s, l, b, v, trailers) && s.tip < |w.commits|
    ensures Lasts(At(w, s.log[l]), s.log[l].tip, w, s.tip)
  {
    var r := s.log[l];
    if |r.command.revs| == 0 {
      LastsForward(At(w, r), w, r.tip);
    } else {
      var base := At(w, if |r.command.revs| == 1 then r else s.log[b]);
      if |r.command.revs| == 1 { AmendedWork(w, r, s.tip); } else { RestampedWork(w, r, base, s.tip, v, trailers); }
      LastsForward(base, w, s.tip);
      LastsTransitive(At(w, r), r.tip, base, s.tip, w, s.tip);
    }
  }

  lemma AmendedWork(w: World, r: Record, tip: nat)
    requires ListedIn(w, r) && |r.command.revs| == 1 && SameButMessage(w.commits, r.tip, tip)
    ensures Lasts(At(w, r), r.tip, At(w, r), tip)
  {
    ReplacedRange(w.commits, r.integration, r.tip, tip);
    if Range(w.commits, r.integration, tip) == [tip] {
      AuthorsSame(w.commits, [tip], w.commits, [r.tip], 1);
      LastsSame(At(w, r), r.tip, At(w, r), tip);
    }
  }

  lemma RestampedWork(w: World, r: Record, base: World, tip: nat, v: S.Vocabulary, trailers: seq<S.Trailer>)
    requires ListedIn(w, r) && WorldOk(base) && base.commits == w.commits
    requires StampedRange(w.commits, r.integration, r.tip, base.integration, tip, v, trailers)
    ensures Lasts(At(w, r), r.tip, base, tip)
  {
    var revs, ids := Range(w.commits, r.integration, r.tip), Range(w.commits, base.integration, tip);
    AuthorsSame(w.commits, ids, w.commits, revs, |ids|);
    LastsSame(At(w, r), r.tip, base, tip);
  }

  lemma ListedWork(start: World, listed: World, w: World, s: Seat, l: nat, b: nat, v: S.Vocabulary,
                   trailers: seq<S.Trailer>)
    requires Forward(start, listed) && Forward(listed, w) && Stamped(w, s, l, b, v, trailers) && s.tip < |w.commits|
    requires s.log[l].integration == listed.integration && s.log[l].tip < |start.commits|
    ensures Lasts(start, s.log[l].tip, w, s.tip)
  {
    AncestorStable(listed.commits, w.commits, start.integration, listed.integration);
    LastsForward(start, At(w, s.log[l]), s.log[l].tip);
    StampedWork(w, s, l, b, v, trailers);
    LastsTransitive(start, s.log[l].tip, At(w, s.log[l]), s.log[l].tip, w, s.tip);
  }

  /** A branch that was linear was listed as linear. */
  lemma LinearListed(start: World, listed: World, w: World, r: Record)
    requires Forward(start, listed) && Forward(listed, w) && LinearBranch(start, r.tip)
    requires r.integration == listed.integration
    ensures LinearRange(w.commits, r.integration, r.tip)
  {
    LinearStable(start, listed, r.tip);
    LinearLater(listed.commits, w.commits, r.integration, r.tip, r.integration);
  }

  /** Asks for the branch tip, the one to roll back to, and stamps. */
  method StampParsed(repo: Repository, seat: string, v: S.Vocabulary, trailers: seq<S.Trailer>,
                     revs: seq<nat>, ghost l: nat)
    returns (err: Error, ghost b: nat)
    requires repo.Valid() && seat in repo.world.seats
    requires Listing(repo.world, repo.world.seats[seat], l, revs) && |revs| >= 1
    modifies repo
    ensures repo.Continues()
    ensures StampEnd(old(repo.world).seats[seat], repo.world, repo.world.seats[seat], err, l, b, v, trailers)
  {
    ghost var listed, s := repo.world, repo.world.seats[seat];
    var tip := repo.RevParse(seat);
    repo.MovedForward();
    ghost var parsed, s1 := repo.world, repo.world.seats[seat];
    if tip.None? {
      StoppedIsRolledBack(s, s1);
      return Some({Other}), l;
    }
    ListingStable(listed, s, parsed, s1, l, revs);
    err, b := StampListed(repo, seat, v, trailers, revs, tip.value, l);
    EndAfterReading(s, s1, repo.world, repo.world.seats[seat], err, l, b, v, trailers);
  }

  /** Stamps the commits unique to the branch, all or none of them. Its first command lists them. */
  method StampRange(repo: Repository, seat: string, v: S.Vocabulary, trailers: seq<S.Trailer>)
    returns (err: Error, ghost b: nat)
    requires repo.Valid() && seat in repo.world.seats
    modifies repo
    ensures repo.Continues()
    ensures var s, s' := old(repo.world).seats[seat], repo.world.seats[seat];
            StampEnd(s, repo.world, s', err, |s.log|, b, v, trailers)
            && (err.None? ==>
                  s'.log[|s.log|].tip == s.tip && Lasts(old(repo.world), s.tip, repo.world, s'.tip)
                  && (LinearBranch(old(repo.world), s.tip) ==> LinearBranch(repo.world, s'.tip)))
  {
    ghost var start, s := repo.world, repo.world.seats[seat];
    b := |s.log|;
    HeadKnown(start, seat);
    var revs := repo.RevList(seat);
    repo.MovedForward();
    ghost var listed, s1 := repo.world, repo.world.seats[seat];
    if revs.None? {
      StoppedIsRolledBack(s, s1);
      return Some({Other}), b;
    }
    assert Listing(listed, s1, |s.log|, revs.value);
    label Listed:
    if |revs.value| == 0 {
      KeptIsLinear(listed, s1.log[|s.log|]);
      if LinearBranch(start, s.tip) { LinearStable(start, listed, s.tip); }
      EndAfterReading(s, s1, listed, s1, None, |s.log|, b, v, trailers);
      LastsForward(start, listed, s.tip);
      return None, b;
    }
    err, b := StampParsed(repo, seat, v, trailers, revs.value, |s.log|);
    EndAfterReading(s, s1, repo.world, repo.world.seats[seat], err, |s.log|, b, v, trailers);
    repo.MovedForward@Listed();
    if LinearBranch(start, s.tip) { LinearListed(start, listed, repo.world, s1.log[|s.log|]); }
    if err.None? {
      HeadKnown(repo.world, seat);
      ListedWork(start, listed, repo.world, repo.world.seats[seat], |s.log|, b, v, trailers);
    }
  }
}
