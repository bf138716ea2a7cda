/** One repository as the landing pipeline drives it: every git command lets other seats act
    first, then takes one step and notes it in the seat's history. */
module Repo {
  import opened Text
  import opened Git

  /** The errors the pipeline tells apart; wrapping one error in another keeps both. */
  datatype Sentinel = Conflict | GateFailed | BranchMissing | NotLinear | Unresolved | Other

  /** None is success. */
  type Error = Option<set<Sentinel>>

  /** How a commit of the worktree ended. */
  datatype Answer = Made | Idle | Refused

  /** One repository shared by all seats, with the run of commands so far. */
  class Repository {
    var world: World
    ghost var run: seq<Entry>

    ghost predicate Valid()
      reads this
    {
      ValidRun(run) && run[|run| - 1].world == world && WorldOk(world)
    }

    /** The run grew by allowed steps. */
    twostate predicate Continues()
      reads this
    {
      Valid() && old(run) <= run && old(world).commits <= world.commits && world.seats.Keys == old(world).seats.Keys
    }

    /** So the world moved forward. */
    twostate lemma MovedForward()
      requires old(Valid()) && Continues()
      ensures Forward(old(world), world)
    {
      IntegrationOnlyMovesForward(run, |old(run)| - 1, |run| - 1);
    }

    /** And the counts of a seat kept up with its commands. */
    twostate lemma Counted(seat: string)
      requires old(Valid()) && Continues() && seat in old(world).seats
      ensures seat in world.seats && Tallied(old(world).seats[seat], world.seats[seat])
    {
      TallyIsTheLog(run, |old(run)| - 1, |run| - 1, seat);
    }

    constructor (initial: World)
      requires WorldOk(initial)
      ensures Valid() && world == initial && run == [Entry("", Begin, initial)]
    {
      world := initial;
      run := [Entry("", Begin, initial)];
    }

    /** Any number of steps of other seats. The body makes none; callers know only the contract. */
    method Interfere(seat: string)
      requires Valid()
      modifies this
      ensures Continues() && Rely(seat, old(world), world)
    {
      AncestorReflexive(world);
    }

    /** One atomic step of this seat. */
    method Act(seat: string, ghost command: Command, next: World)
      requires Valid() && Step(seat, command, world, next)
      modifies this
      ensures Continues() && world == next
    {
      ghost var grown := run + [Entry(seat, command, next)];
      forall i | 0 < i < |grown|
        ensures StepAt(grown, i)
      {
        if i < |run| { assert StepAt(run, i); }
      }
      world := next;
      run := grown;
    }

    /** The step of a command that changes nothing but the seat's history. */
    method Note(seat: string, command: Command)
      requires Valid() && seat in world.seats && world.seats[seat].tip < |world.commits|
      requires Effect(command, world, world.seats[seat], world, world.seats[seat])
      modifies this
      ensures Continues() && world == Put(old(world), seat, command, old(world).seats[seat])
    {
      Act(seat, command, Put(world, seat, command, world.seats[seat]));
    }

    /** A command that changes nothing but the seat's history, done or refused. */
    method Ask(seat: string) returns (done: bool)
      requires Valid() && seat in world.seats
      modifies this
      ensures Continues() && world.seats[seat] == old(world).seats[seat].Noted(Query(done), world.integration)
    {
      Interfere(seat);
      done := *;
      Note(seat, Query(done));
    }

    /** A command that may move HEAD and nothing else. */
    method MoveHead(seat: string, head: Head)
      requires Valid() && seat in world.seats && (head.Detached? ==> head.at < |world.commits|)
      modifies this
      ensures Continues()
      ensures world.seats[seat] == old(world).seats[seat].(head := head).Noted(Rewrite, world.integration)
    {
      Interfere(seat);
      Act(seat, Rewrite, Put(world, seat, Rewrite, world.seats[seat].(head := head)));
    }

    // ---------------------------------------------------------- queries

    method RevList(seat: string) returns (revs: Option<seq<nat>>)
      requires Valid() && seat in world.seats
      modifies this
      ensures Continues()
      ensures revs.Some? ==> revs.value == Range(world.commits, world.integration, world.seats[seat].tip)
      ensures var command := if revs.Some? then List(revs.value) else Query(false);
              world.seats[seat] == old(world).seats[seat].Noted(command, world.integration)
    {
      Interfere(seat);
      if * {
        Note(seat, Query(false));
        return None;
      }
      var listed := Range(world.commits, world.integration, world.seats[seat].tip);
      Note(seat, List(listed));
      return Some(listed);
    }

    method RevParse(seat: string) returns (tip: Option<nat>)
      requires Valid() && seat in world.seats
      modifies this
      ensures Continues() && world.seats[seat] == old(world).seats[seat].Noted(Query(tip.Some?), world.integration)
      ensures tip.Some? ==> tip.value == world.seats[seat].tip
    {
      var done := Ask(seat);
      if !done { return None; }
      return Some(world.seats[seat].tip);
    }

    method Show(seat: string, rev: nat) returns (meta: Option<Meta>)
      requires Valid() && seat in world.seats && rev < |world.commits|
      modifies this
      ensures Continues() && world.seats[seat] == old(world).seats[seat].Noted(Query(meta.Some?), world.integration)
      ensures meta.Some? ==> meta.value == world.commits[rev].meta
    {
      var done := Ask(seat);
      if !done { return None; }
      return Some(world.commits[rev].meta);
    }

    /** Name, address and date of a commit; None also when one of them is blank. */
    method ShowAuthor(seat: string, rev: nat) returns (author: Option<Author>)
      requires Valid() && seat in world.seats && rev < |world.commits|
      modifies this
      ensures Continues()
      ensures world.seats[seat] == old(world).seats[seat].Noted(Query(author.Some?), world.integration)
      ensures author.Some? ==>
        author.value == AuthorOf(world.commits[rev].meta)
        && author.value.name != "" && author.value.email != "" && author.value.date != ""
    {
      Interfere(seat);
      var meta, answered := world.commits[rev].meta, *;
      assert MetaOk(meta);
      var name, email, date := TrimSpace(meta.name), TrimSpace(meta.email), TrimSpace(meta.date);
      var readable := answered && name != "" && email != "" && date != "";
      Note(seat, Query(readable));
      return if readable then Some(Author(name, email, date)) else None;
    }

    /** Writes a commit message to a file. */
    method WriteMessage(seat: string) returns (done: bool)
      requires Valid() && seat in world.seats
      modifies this
      ensures Continues() && world.seats[seat] == old(world).seats[seat].Noted(Query(done), world.integration)
    {
      done := Ask(seat);
    }

    /** None when the command fails; the answer may also be unreadable text. */
    method CountMerges(seat: string) returns (count: Option<Option<nat>>)
      requires Valid() && seat in world.seats
      modifies this
      ensures Continues()
      ensures var command := if count.Some? && count.value.Some? then Merges(count.value.value) else Query(false);
              world.seats[seat] == old(world).seats[seat].Noted(command, world.integration)
      ensures count == Some(Some(0)) ==> LinearRange(world.commits, world.integration, world.seats[seat].tip)
    {
      Interfere(seat);
      if * {
        Note(seat, Query(false));
        var unreadable := *;
        return if unreadable then Some(None) else None;
      }
      var merges := MergesUpTo(world.commits, world.integration, world.seats[seat].tip, |world.commits|);
      if merges == 0 { NoMergesIsLinear(world.commits, world.integration, world.seats[seat].tip); }
      Note(seat, Merges(merges));
      return Some(Some(merges));
    }

    /** Whether the branch is an ancestor of integration; None when the command fails. */
    method IsAncestor(seat: string) returns (answer: Option<bool>)
      requires Valid() && seat in world.seats
      modifies this
      ensures Continues()
      ensures var command := if answer.Some? then Ancestry(answer.value) else Query(false);
              world.seats[seat] == old(world).seats[seat].Noted(command, world.integration)
      ensures answer.Some? ==> answer.value == Ancestor(world.commits, world.seats[seat].tip, world.integration)
    {
      Interfere(seat);
      if * {
        Note(seat, Query(false));
        return None;
      }
      var merged := Ancestor(world.commits, world.seats[seat].tip, world.integration);
      Note(seat, Ancestry(merged));
      return Some(merged);
    }

    // ---------------------------------------------------------- commands that change the worktree or a branch

    /** Records a commit in the worktree. */
    method Commit(seat: string, amend: bool, meta: Meta) returns (made: bool, ghost before: World)
      requires Valid() && seat in world.seats && MetaOk(meta)
      modifies this
      ensures Continues() && Rely(seat, old(world), before)
      ensures world == if made then WithCommit(before, seat, amend, meta)
                       else Put(before, seat, Query(false), before.seats[seat])
    {
      Interfere(seat);
      before := world;
      if * {
        Note(seat, Query(false));
        return false, before;
      }
      WithCommitStep(world, seat, amend, meta);
      Act(seat, Rewrite, WithCommit(world, seat, amend, meta));
      return true, before;
    }

    /** Records the worktree in a new commit on HEAD or in its place, unless there is nothing to commit. */
    method Save(seat: string, amend: bool, meta: Meta) returns (answer: Answer, ghost before: World)
      requires Valid() && seat in world.seats && MetaOk(meta)
      modifies this
      ensures Continues() && Rely(seat, old(world), before)
      ensures world == match answer
                       case Made => if amend then Amended(before, seat, None) else WithCommit(before, seat, false, meta)
                       case Idle => Put(before, seat, Nothing, before.seats[seat])
                       case Refused => Put(before, seat, Query(false), before.seats[seat])
    {
      if * {
        Interfere(seat);
        before := world;
        HeadKnown(world, seat);
        Note(seat, Nothing);
        return Idle, before;
      }
      var made;
      if amend { made, before := Amend(seat, None); } else { made, before := Commit(seat, false, meta); }
      return if made then Made else Refused, before;
    }

    /** Amends the commit in the worktree; git keeps its author and date. */
    method Amend(seat: string, message: Option<string>) returns (made: bool, ghost before: World)
      requires Valid() && seat in world.seats
      modifies this
      ensures Continues() && Rely(seat, old(world), before) && seat in before.seats
      ensures before.seats[seat].HeadCommit() < |before.commits|
      ensures world == if made then Amended(before, seat, message)
                       else Put(before, seat, Query(false), before.seats[seat])
    {
      HeadKnown(world, seat);
      var meta := AmendedMeta(world, seat, message);
      made, before := Commit(seat, true, meta);
    }

    /** Applies a change to the worktree without committing it. */
    method CherryPick(seat: string) returns (exit: Exit)
      requires Valid() && seat in world.seats
      modifies this
      ensures Continues() && world.seats[seat] == old(world).seats[seat].Noted(Pick(exit), world.integration)
    {
      Interfere(seat);
      var picked, conflict, diverged := *, *, *;
      exit := if picked then Ok else Failed(conflict, diverged);
      Act(seat, Pick(exit), Put(world, seat, Pick(exit), world.seats[seat]));
    }

    method CheckoutDetach(seat: string) returns (done: bool)
      requires Valid() && seat in world.seats
      modifies this
      ensures Continues()
      ensures world.seats[seat] ==
              if done then old(world).seats[seat].(head := Detached(world.integration)).Noted(Detach, world.integration)
              else old(world).seats[seat].Noted(Query(false), world.integration)
    {
      Interfere(seat);
      if * {
        Note(seat, Query(false));
        return false;
      }
      var s := world.seats[seat].(head := Detached(world.integration));
      Act(seat, Detach, Put(world, seat, Detach, s));
      return true;
    }

    method CheckoutBranch(seat: string) returns (done: bool)
      requires Valid() && seat in world.seats
      modifies this
      ensures Continues()
      ensures var s := old(world).seats[seat];
              world.seats[seat] == (if done then s.(head := OnBranch) else s).Noted(Checkout(done), world.integration)
    {
      Interfere(seat);
      done := *;
      var s := if done then world.seats[seat].(head := OnBranch) else world.seats[seat];
      Act(seat, Checkout(done), Put(world, seat, Checkout(done), s));
    }

    /** Forces the branch; git refuses while the branch is checked out. */
    method BranchForce(seat: string, target: nat) returns (done: bool)
      requires Valid() && seat in world.seats && target < |world.commits|
      modifies this
      ensures Continues()
      ensures done ==> old(world).seats[seat].head.Detached?
      ensures var s := old(world).seats[seat];
              world.seats[seat] == (if done then s.Moved(target) else s).Noted(Force(target, done), world.integration)
    {
      Interfere(seat);
      var refused := *;
      done := !refused && world.seats[seat].head.Detached?;
      var s := if done then world.seats[seat].Moved(target) else world.seats[seat];
      Act(seat, Force(target, done), Put(world, seat, Force(target, done), s));
    }

    /** Rebases the branch onto integration. A failed rebase leaves the branch alone and HEAD
        anywhere. */
    method RebaseCommand(seat: string) returns (exit: Exit)
      requires Valid() && seat in world.seats
      modifies this
      ensures Continues()
      ensures exit == Ok ==>
        var s' := world.seats[seat];
        s' == old(world).seats[seat].(head := OnBranch).Moved(s'.tip).Noted(Rebase(Ok), world.integration)
        && Ancestor(world.commits, world.integration, s'.tip)
        && Keeps(old(world), old(world).seats[seat].tip, world, s'.tip)
      ensures exit != Ok ==>
        exists h :: world.seats[seat] == old(world).seats[seat].(head := h).Noted(Rebase(exit), world.integration)
    {
      Interfere(seat);
      if * {
        var conflict, diverged := *, *;
        exit := Failed(conflict, diverged);
        Act(seat, Rebase(exit),
            Put(world, seat, Rebase(exit), world.seats[seat].(head := Detached(world.integration))));
        return;
      }
      ghost var before := world;
      RebaseNow(seat);
      KeepsForward(old(world), before, before.seats[seat].tip);
      KeepsTransitive(old(world), before.seats[seat].tip, before, before.seats[seat].tip, world, world.seats[seat].tip);
      return Ok;
    }

    /** The step of a rebase that succeeds: new copies of the branch's commits on integration. Callers
        know only that none is invented, that they keep their order, authors and dates, and that no
        merge joins them. */
    method RebaseNow(seat: string)
      requires Valid() && seat in world.seats
      modifies this
      ensures Continues() && Ancestor(world.commits, world.integration, world.seats[seat].tip)
      ensures var s, s' := old(world).seats[seat], world.seats[seat];
              s' == s.(head := OnBranch).Moved(s'.tip).Noted(Rebase(Ok), world.integration)
              && Keeps(old(world), s.tip, world, s'.tip)
    {
      var commits, tip := world.commits, world.seats[seat].tip;
      if !Ancestor(commits, world.integration, tip) { commits, tip := Replayed(commits, world.integration, tip); }
      RebasedStep(world, seat, commits, tip);
      Act(seat, Rebase(Ok), RebasedTo(world, seat, commits, tip));
    }

    // ---------------------------------------------------------- gate and fast-forward

    /** The start of a landing: earlier gate results no longer count. */
    method StartLanding(seat: string)
      requires Valid() && seat in world.seats
      modifies this
      ensures Continues()
      ensures world.seats[seat] == old(world).seats[seat].(passed := None).Noted(Begin, world.integration)
    {
      Interfere(seat);
      Act(seat, Begin, Put(world, seat, Begin, world.seats[seat].(passed := None)));
    }

    /** Runs the gate on what is checked out in the worktree: the branch tip. */
    method RunGate(seat: string) returns (passed: bool)
      requires Valid() && seat in world.seats && world.seats[seat].head == OnBranch
      modifies this
      ensures Continues()
      ensures var s := old(world).seats[seat];
              world.seats[seat]
              == s.(passed := if passed then Some(s.tip) else None).Noted(Gate(passed), world.integration)
    {
      Interfere(seat);
      passed := *;
      var s := world.seats[seat];
      Act(seat, Gate(passed), Put(world, seat, Gate(passed), s.(passed := if passed then Some(s.tip) else None)));
    }

    /** merge --ff-only: moves integration only to a descendant. The pipeline owes the passed
        gate. at is integration when it ran. */
    method FastForwardCommand(seat: string) returns (exit: Exit, ghost at: nat)
      requires Valid() && seat in world.seats && world.seats[seat].passed == Some(world.seats[seat].tip)
      modifies this
      ensures Continues() && at < |world.commits| && Ancestor(world.commits, old(world).integration, at)
      ensures var s := old(world).seats[seat];
              world.seats[seat]
              == (if exit == Ok then s.(landed := s.landed + [s.tip]) else s).Noted(FastForward(exit), at)
      ensures exit == Ok ==> Ancestor(world.commits, world.seats[seat].tip, world.integration)
    {
      Interfere(seat);
      at := world.integration;
      var s := world.seats[seat];
      var refused := *;
      var behind := Ancestor(world.commits, s.tip, world.integration);
      if refused || (!behind && !Ancestor(world.commits, world.integration, s.tip)) {
        var conflict, diverged := *, *;
        exit := Failed(conflict, diverged);
        Act(seat, FastForward(exit), Put(world, seat, FastForward(exit), s));
        return;
      }
      MergedStep(world, seat, behind);
      Act(seat, FastForward(Ok), Merged(world, seat, behind));
      return Ok, at;
    }
  }

  /** The world after a rebase that left the branch at tip. */
  function RebasedTo(w: World, seat: string, commits: seq<Commit>, tip: nat): World
    requires seat in w.seats
  {
    Put(w.(commits := commits), seat, Rebase(Ok), w.seats[seat].(head := OnBranch).Moved(tip))
  }

  lemma RebasedStep(w: World, seat: string, commits: seq<Commit>, tip: nat)
    requires WorldOk(w) && seat in w.seats && CommitsOk(commits) && w.commits <= commits && tip < |commits|
    requires Ancestor(commits, w.integration, tip)
    requires Work(commits, w.integration, tip) == Work(w.commits, w.integration, w.seats[seat].tip)
    requires LinearRange(w.commits, w.integration, w.seats[seat].tip) ==> LinearRange(commits, w.integration, tip)
    ensures var w' := RebasedTo(w, seat, commits, tip);
            Step(seat, Rebase(Ok), w, w') && Keeps(w, w.seats[seat].tip, w', tip)
  {
    LastsSame(w, w.seats[seat].tip, RebasedTo(w, seat, commits, tip), tip);
  }

  function AmendedMeta(w: World, seat: string, message: Option<string>): Meta
    requires seat in w.seats && w.seats[seat].HeadCommit() < |w.commits|
  {
    var meta := w.commits[w.seats[seat].HeadCommit()].meta;
    if message.Some? then meta.(message := message.value) else meta
  }

  function Amended(w: World, seat: string, message: Option<string>): World
    requires seat in w.seats && w.seats[seat].HeadCommit() < |w.commits|
  {
    WithCommit(w, seat, true, AmendedMeta(w, seat, message))
  }

  lemma AncestorReflexive(w: World)
    requires WorldOk(w)
    ensures forall seat :: Rely(seat, w, w)
  {
  }

  lemma HeadKnown(w: World, seat: string)
    requires WorldOk(w) && seat in w.seats
    ensures w.seats[seat].tip < |w.commits| && w.seats[seat].HeadCommit() < |w.commits|
  {
  }

  /** The first commits of a range, copied onto base under new numbers. */
  ghost predicate Copied(commits: seq<Commit>, base: nat, ids: seq<nat>, revs: seq<nat>) {
    IsChain(commits, base, ids) && |ids| <= |revs|
    && forall k | 0 <= k < |ids| ::
         ids[k] < |commits| && revs[k] < |commits| && commits[ids[k]].meta == commits[revs[k]].meta
  }

  lemma CopiedMore(commits: seq<Commit>, base: nat, ids: seq<nat>, revs: seq<nat>)
    requires Copied(commits, base, ids, revs) && |ids| < |revs| && revs[|ids|] < |commits|
    ensures var next := Git.Commit([Below(base, ids, |ids|)], commits[revs[|ids|]].meta);
            Copied(commits + [next], base, ids + [|commits|], revs)
  {
    ChainExtend(commits, base, ids, commits[revs[|ids|]].meta);
  }

  /** The copies carry the work of the range. */
  lemma CopiedWork(commits: seq<Commit>, more: seq<Commit>, base: nat, tip: nat, ids: seq<nat>)
    requires CommitsOk(commits) && CommitsOk(more) && commits <= more && base < |commits| && tip < |commits|
    requires Copied(more, base, ids, Range(commits, base, tip)) && |ids| == |Range(commits, base, tip)|
    ensures Below(base, ids, |ids|) < |more| && Ancestor(more, base, Below(base, ids, |ids|))
    ensures Work(more, base, Below(base, ids, |ids|)) == Work(commits, base, tip)
  {
    var last := Below(base, ids, |ids|);
    if ids == [] { NothingAdded(more, base, base); } else { ChainIsRange(more, base, ids); }
    var revs := Range(commits, base, tip);
    RangeAscends(commits, base, tip, |commits|);
    CopiedAuthors(commits, more, base, ids, revs);
    AuthorsSame(more, ids, commits, revs, |ids|);
  }

  lemma CopiedLinear(more: seq<Commit>, base: nat, ids: seq<nat>, revs: seq<nat>)
    requires CommitsOk(more) && base < |more| && Copied(more, base, ids, revs)
    ensures Below(base, ids, |ids|) < |more| && LinearRange(more, base, Below(base, ids, |ids|))
  {
    if ids != [] { ChainIsLinear(more, base, ids); }
  }

  lemma CopiedAuthors(commits: seq<Commit>, more: seq<Commit>, base: nat, ids: seq<nat>, revs: seq<nat>)
    requires commits <= more && Copied(more, base, ids, revs) && |ids| == |revs|
    requires forall k | 0 <= k < |revs| :: revs[k] < |commits|
    ensures SameAuthors(more, ids, commits, revs)
  {
    forall k | 0 <= k < |ids|
      ensures AuthorOf(more[ids[k]].meta) == AuthorOf(commits[revs[k]].meta)
    {
      assert more[revs[k]] == commits[revs[k]];
    }
  }

  /** New copies of the commits of base..tip, stacked on base. */
  method Replayed(commits: seq<Commit>, base: nat, tip: nat) returns (more: seq<Commit>, last: nat)
    requires CommitsOk(commits) && base < |commits| && tip < |commits|
    ensures CommitsOk(more) && commits <= more && last < |more| && Ancestor(more, base, last)
    ensures Work(more, base, last) == Work(commits, base, tip) && LinearRange(more, base, last)
  {
    var revs := Range(commits, base, tip);
    RangeAscends(commits, base, tip, |commits|);
    more, last := commits, base;
    ghost var ids: seq<nat> := [];
    for n := 0 to |revs|
      invariant CommitsOk(more) && commits <= more && |ids| == n
      invariant Copied(more, base, ids, revs) && last == Below(base, ids, n) < |more|
    {
      CopiedMore(more, base, ids, revs);
      ids := ids + [|more|];
      more, last := more + [Git.Commit([last], more[revs[n]].meta)], |more|;
    }
    CopiedWork(commits, more, base, tip, ids);
    CopiedLinear(more, base, ids, revs);
  }
}
