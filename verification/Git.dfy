/** Git as the landing pipeline sees it: a growing commit graph, one integration branch, and
    per seat a branch, a worktree HEAD and the history of its landings. All of it is one
    value, so that a run is a sequence of values and "another seat acts" is a relation. */
module Git {
  import opened Text

  datatype Meta = Meta(name: string, email: string, date: string, message: string)

  datatype Commit = Commit(parents: seq<nat>, meta: Meta)

  datatype Head = OnBranch | Detached(at: nat)

  /** How a git command ended, with what its output says about a failure. */
  datatype Exit = Ok | Failed(conflict: bool, diverged: bool)

  /** The commands of a landing, with their answers. Query only reads when it is done; whatever is
      not done, or answered in a way the pipeline cannot read, changed nothing. Nothing is a commit
      refused because there was nothing to commit. Rewrite commits, amends or puts HEAD back; Pick
      applies a change to the worktree without committing it. */
  datatype Command =
    | Begin
    | Query(done: bool)
    | Ancestry(merged: bool)
    | List(revs: seq<nat>)
    | Merges(count: nat)
    | Rewrite
    | Nothing
    | Rebase(exit: Exit)
    | Detach
    | Checkout(done: bool)
    | Pick(exit: Exit)
    | Force(target: nat, done: bool)
    | Gate(passed: bool)
    | FastForward(exit: Exit)

  /** Neither the gate nor a fast-forward. */
  predicate Plain(c: Command) {
    !c.Gate? && !c.FastForward?
  }

  /** Git's answer says that the branch does not go onto integration as it is. */
  predicate Conflicting(c: Command) {
    match c
    case Rebase(Failed(conflict, _)) => conflict
    case Pick(Failed(conflict, _)) => conflict
    case Merges(count) => count > 0
    case _ => false
  }

  /** The answer is one from which the pipeline does not go on. */
  predicate Stops(c: Command) {
    match c
    case Query(done) => !done
    case Merges(count) => count > 0
    case Rebase(exit) => exit != Ok
    case Pick(exit) => exit != Ok
    case Checkout(done) => !done
    case Force(_, done) => !done
    case Gate(passed) => !passed
    case FastForward(exit) => exit != Ok
    case _ => false
  }

  /** One command of a seat, with integration when it ran and the branch tip it left. */
  datatype Record = Record(command: Command, integration: nat, tip: nat)

  /** How many gates and fast-forwards a seat ran, how often git spoke of a conflict, and how many
      commands were refused or answered with no. */
  datatype Tally = Tally(gates: nat, attempts: nat, conflicts: nat, refusals: nat)
  {
    function After(c: Command): Tally {
      Tally(gates + if c.Gate? then 1 else 0, attempts + if c.FastForward? then 1 else 0,
            conflicts + if Conflicting(c) then 1 else 0, refusals + if Stops(c) then 1 else 0)
    }
  }

  /** One seat. The last four fields are history: the commit its gate last passed on since the
      branch was last rewritten, the tips it landed, the counts of its commands, and every command
      it ran. */
  datatype Seat = Seat(tip: nat, head: Head, passed: Option<nat>, landed: seq<nat>, tally: Tally,
                       log: seq<Record>)
  {
    /** The commit checked out in the seat's worktree. */
    function HeadCommit(): nat {
      match head case OnBranch => tip case Detached(at) => at
    }

    /** Moving the branch forgets that the gate passed. */
    function Moved(to: nat): Seat {
      if to == tip then this else this.(tip := to, passed := None)
    }

    /** A commit made in the worktree moves HEAD, and the branch when HEAD is on it. */
    function Committed(to: nat): Seat {
      if head.OnBranch? then Moved(to) else this.(head := Detached(to))
    }

    /** The seat after a command that it just ran. */
    function Noted(command: Command, integration: nat): Seat {
      this.(tally := tally.After(command), log := log + [Record(command, integration, tip)])
    }
  }

  datatype World = World(commits: seq<Commit>, integration: nat, seats: map<string, Seat>)

  ghost predicate MetaOk(m: Meta) {
    TrimSpace(m.name) == m.name && TrimSpace(m.email) == m.email && TrimSpace(m.date) == m.date
  }

  /** Commits are numbered in creation order. Git stores identities without surrounding space. */
  ghost predicate CommitsOk(commits: seq<Commit>) {
    forall c | 0 <= c < |commits| ::
      (forall i | 0 <= i < |commits[c].parents| :: commits[c].parents[i] < c) && MetaOk(commits[c].meta)
  }

  ghost predicate WorldOk(w: World) {
    CommitsOk(w.commits) && w.integration < |w.commits|
    && forall s | s in w.seats :: w.seats[s].tip < |w.commits| && w.seats[s].HeadCommit() < |w.commits|
  }

  // ------------------------------------------------------------ ancestry

  predicate Ancestor(commits: seq<Commit>, a: nat, b: nat)
    requires CommitsOk(commits) && b < |commits|
    decreases b
  {
    a == b || exists i :: 0 <= i < |commits[b].parents| && Ancestor(commits, a, commits[b].parents[i])
  }

  lemma {:induction false} AncestorOlder(commits: seq<Commit>, a: nat, b: nat)
    requires CommitsOk(commits) && b < |commits| && Ancestor(commits, a, b)
    ensures a <= b
    decreases b
  {
    if a != b {
      var i :| 0 <= i < |commits[b].parents| && Ancestor(commits, a, commits[b].parents[i]);
      AncestorOlder(commits, a, commits[b].parents[i]);
    }
  }

  lemma {:induction false} AncestorTransitive(commits: seq<Commit>, a: nat, b: nat, c: nat)
    requires CommitsOk(commits) && b < |commits| && c < |commits|
    requires Ancestor(commits, a, b) && Ancestor(commits, b, c)
    ensures Ancestor(commits, a, c)
    decreases c
  {
    if b != c {
      var i :| 0 <= i < |commits[c].parents| && Ancestor(commits, b, commits[c].parents[i]);
      AncestorTransitive(commits, a, b, commits[c].parents[i]);
    }
  }

  /** New commits never change the ancestry of old ones. */
  lemma {:induction false} AncestorStable(commits: seq<Commit>, more: seq<Commit>, a: nat, b: nat)
    requires CommitsOk(commits) && CommitsOk(more) && commits <= more && b < |commits|
    ensures Ancestor(commits, a, b) <==> Ancestor(more, a, b)
    decreases b
  {
    assert commits[b] == more[b];
    forall i | 0 <= i < |commits[b].parents|
      ensures Ancestor(commits, a, commits[b].parents[i]) <==> Ancestor(more, a, more[b].parents[i])
    {
      AncestorStable(commits, more, a, commits[b].parents[i]);
    }
  }

  // ------------------------------------------------------------ ranges and chains

  /** tip has the commit and exclude has not. */
  predicate Unique(commits: seq<Commit>, exclude: nat, tip: nat, c: nat)
    requires CommitsOk(commits) && exclude < |commits| && tip < |commits|
  {
    Ancestor(commits, c, tip) && !Ancestor(commits, c, exclude)
  }

  function RangeUpTo(commits: seq<Commit>, exclude: nat, tip: nat, n: nat): seq<nat>
    requires CommitsOk(commits) && exclude < |commits| && tip < |commits| && n <= |commits|
  {
    if n == 0 then []
    else
      var before := RangeUpTo(commits, exclude, tip, n - 1);
      if Unique(commits, exclude, tip, n - 1) then before + [n - 1] else before
  }

  /** The commits of exclude..tip, oldest first. */
  function Range(commits: seq<Commit>, exclude: nat, tip: nat): seq<nat>
    requires CommitsOk(commits) && exclude < |commits| && tip < |commits|
  {
    RangeUpTo(commits, exclude, tip, |commits|)
  }

  /** How many commits of exclude..tip have several parents. */
  function MergesUpTo(commits: seq<Commit>, exclude: nat, tip: nat, n: nat): nat
    requires CommitsOk(commits) && exclude < |commits| && tip < |commits| && n <= |commits|
  {
    if n == 0 then 0
    else
      MergesUpTo(commits, exclude, tip, n - 1)
      + if Unique(commits, exclude, tip, n - 1) && |commits[n - 1].parents| > 1
        then 1 else 0
  }

  ghost predicate LinearRange(commits: seq<Commit>, exclude: nat, tip: nat)
    requires CommitsOk(commits) && exclude < |commits| && tip < |commits|
  {
    forall c | 0 <= c < |commits| && Unique(commits, exclude, tip, c) ::
      |commits[c].parents| <= 1
  }

  ghost predicate NoMergeAt(commits: seq<Commit>, exclude: nat, tip: nat, c: nat)
    requires CommitsOk(commits) && exclude < |commits| && tip < |commits| && c < |commits|
  {
    Unique(commits, exclude, tip, c) ==> |commits[c].parents| <= 1
  }

  lemma {:induction false} NoMergesUpTo(commits: seq<Commit>, exclude: nat, tip: nat, n: nat)
    requires CommitsOk(commits) && exclude < |commits| && tip < |commits| && n <= |commits|
    ensures MergesUpTo(commits, exclude, tip, n) == 0 ==> forall c | 0 <= c < n :: NoMergeAt(commits, exclude, tip, c)
  {
    if n > 0 { NoMergesUpTo(commits, exclude, tip, n - 1); }
  }

  /** A branch of which no commit is counted as a merge is linear. */
  lemma NoMergesIsLinear(commits: seq<Commit>, exclude: nat, tip: nat)
    requires CommitsOk(commits) && exclude < |commits| && tip < |commits|
    requires MergesUpTo(commits, exclude, tip, |commits|) == 0
    ensures LinearRange(commits, exclude, tip)
  {
    NoMergesUpTo(commits, exclude, tip, |commits|);
    forall c | 0 <= c < |commits| && Unique(commits, exclude, tip, c)
      ensures |commits[c].parents| <= 1
    {
      assert NoMergeAt(commits, exclude, tip, c);
    }
  }

  ghost predicate Ascending(s: seq<nat>) {
    forall i, j | 0 <= i < j < |s| :: s[i] < s[j]
  }

  lemma {:induction false} RangeAscends(commits: seq<Commit>, exclude: nat, tip: nat, n: nat)
    requires CommitsOk(commits) && exclude < |commits| && tip < |commits| && n <= |commits|
    ensures Ascending(RangeUpTo(commits, exclude, tip, n))
    ensures forall i | 0 <= i < |RangeUpTo(commits, exclude, tip, n)| :: RangeUpTo(commits, exclude, tip, n)[i] < n
  {
    if n > 0 { RangeAscends(commits, exclude, tip, n - 1); }
  }

  lemma {:induction false} RangeMember(commits: seq<Commit>, exclude: nat, tip: nat, n: nat, c: nat)
    requires CommitsOk(commits) && exclude < |commits| && tip < |commits| && n <= |commits|
    ensures c in RangeUpTo(commits, exclude, tip, n)
            <==> c < n && Unique(commits, exclude, tip, c)
  {
    if n > 0 { RangeMember(commits, exclude, tip, n - 1, c); }
  }

  lemma {:induction false} AscendingUnique(a: seq<nat>, b: seq<nat>)
    requires Ascending(a) && Ascending(b) && forall c :: c in a <==> c in b
    ensures a == b
  {
    assert (a == [] || a[0] in b) && (b == [] || b[0] in a);
    if a != [] {
      assert a[0] == b[0];
      forall c
        ensures c in a[1..] <==> c in b[1..]
      {
        assert c in a[1..] <==> c in a && c != a[0];
        assert c in b[1..] <==> c in b && c != b[0];
      }
      AscendingUnique(a[1..], b[1..]);
    }
  }

  function Below(base: nat, ids: seq<nat>, k: nat): nat
    requires k <= |ids|
  {
    if k == 0 then base else ids[k - 1]
  }

  /** The only parent of commit k of the sequence is the one before it. */
  ghost predicate Link(commits: seq<Commit>, base: nat, ids: seq<nat>, k: nat)
    requires k < |ids|
  {
    ids[k] < |commits| && |commits[ids[k]].parents| == 1 && commits[ids[k]].parents[0] == Below(base, ids, k)
  }

  /** Single-parent commits on top of base, each on the one before it. */
  ghost predicate IsChain(commits: seq<Commit>, base: nat, ids: seq<nat>) {
    (forall k | 0 <= k < |ids| :: ids[k] < |commits|) && forall k | 0 <= k < |ids| :: Link(commits, base, ids, k)
  }

  lemma {:induction false} ChainAscends(commits: seq<Commit>, base: nat, ids: seq<nat>, k: nat)
    requires CommitsOk(commits) && IsChain(commits, base, ids) && k < |ids|
    ensures base < ids[k] && forall j | 0 <= j < k :: ids[j] < ids[k]
  {
    assert Link(commits, base, ids, k);
    if k > 0 { ChainAscends(commits, base, ids, k - 1); }
  }

  lemma {:induction false} ChainAncestors(commits: seq<Commit>, base: nat, ids: seq<nat>, k: nat, c: nat)
    requires CommitsOk(commits) && base < |commits| && IsChain(commits, base, ids) && k < |ids|
    ensures Ancestor(commits, c, ids[k]) <==> c in ids[..k + 1] || Ancestor(commits, c, base)
  {
    var parent := Below(base, ids, k);
    assert Link(commits, base, ids, k);
    assert ids[..k + 1] == ids[..k] + [ids[k]];
    assert Ancestor(commits, c, ids[k]) <==> c == ids[k] || Ancestor(commits, c, parent);
    if k > 0 { ChainAncestors(commits, base, ids, k - 1, c); }
  }

  lemma ChainMember(commits: seq<Commit>, base: nat, ids: seq<nat>, c: nat)
    requires CommitsOk(commits) && base < |commits| && IsChain(commits, base, ids) && ids != []
    ensures c in Range(commits, base, ids[|ids| - 1]) <==> c in ids
  {
    assert ids[..|ids|] == ids;
    RangeMember(commits, base, ids[|ids| - 1], |commits|, c);
    ChainAncestors(commits, base, ids, |ids| - 1, c);
    if c in ids { ChainAboveBase(commits, base, ids, c); }
  }

  lemma ChainAboveBase(commits: seq<Commit>, base: nat, ids: seq<nat>, c: nat)
    requires CommitsOk(commits) && base < |commits| && IsChain(commits, base, ids) && c in ids
    ensures c < |commits| && !Ancestor(commits, c, base)
  {
    var k :| 0 <= k < |ids| && ids[k] == c;
    ChainAscends(commits, base, ids, k);
    if Ancestor(commits, c, base) { AncestorOlder(commits, c, base); }
  }

  /** A chain on base is exactly the range from base to its last commit. */
  lemma ChainIsRange(commits: seq<Commit>, base: nat, ids: seq<nat>)
    requires CommitsOk(commits) && base < |commits| && IsChain(commits, base, ids) && ids != []
    ensures Range(commits, base, ids[|ids| - 1]) == ids
    ensures Ancestor(commits, base, ids[|ids| - 1])
  {
    var tip := ids[|ids| - 1];
    forall c: nat
      ensures c in Range(commits, base, tip) <==> c in ids
    {
      ChainMember(commits, base, ids, c);
    }
    forall i, j | 0 <= i < j < |ids|
      ensures ids[i] < ids[j]
    {
      ChainAscends(commits, base, ids, j);
    }
    ChainAncestors(commits, base, ids, |ids| - 1, base);
    RangeAscends(commits, base, tip, |commits|);
    AscendingUnique(Range(commits, base, tip), ids);
  }

  lemma {:induction false} RangeUpToStable(commits: seq<Commit>, more: seq<Commit>, exclude: nat, tip: nat, n: nat)
    requires CommitsOk(commits) && CommitsOk(more) && commits <= more
    requires exclude < |commits| && tip < |commits| && n <= |commits|
    ensures RangeUpTo(more, exclude, tip, n) == RangeUpTo(commits, exclude, tip, n)
  {
    if n > 0 {
      RangeUpToStable(commits, more, exclude, tip, n - 1);
      AncestorStable(commits, more, n - 1, tip);
      AncestorStable(commits, more, n - 1, exclude);
    }
  }

  lemma {:induction false} RangeBeyond(commits: seq<Commit>, exclude: nat, tip: nat, n: nat, later: nat)
    requires CommitsOk(commits) && exclude < |commits| && tip < n <= later <= |commits|
    ensures RangeUpTo(commits, exclude, tip, later) == RangeUpTo(commits, exclude, tip, n)
    decreases later
  {
    if n < later {
      RangeBeyond(commits, exclude, tip, n, later - 1);
      if Ancestor(commits, later - 1, tip) { AncestorOlder(commits, later - 1, tip); }
    }
  }

  /** New commits never change a range of old ones. */
  lemma RangeStable(commits: seq<Commit>, more: seq<Commit>, exclude: nat, tip: nat)
    requires CommitsOk(commits) && CommitsOk(more) && commits <= more && exclude < |commits| && tip < |commits|
    ensures Range(more, exclude, tip) == Range(commits, exclude, tip)
  {
    RangeUpToStable(commits, more, exclude, tip, |commits|);
    RangeBeyond(more, exclude, tip, |commits|, |more|);
  }

  lemma ChainStable(commits: seq<Commit>, more: seq<Commit>, base: nat, ids: seq<nat>)
    requires commits <= more && IsChain(commits, base, ids)
    ensures IsChain(more, base, ids)
  {
    forall k | 0 <= k < |ids|
      ensures Link(more, base, ids, k)
    {
      assert Link(commits, base, ids, k) && commits[ids[k]] == more[ids[k]];
    }
  }

  lemma ChainExtend(commits: seq<Commit>, base: nat, ids: seq<nat>, meta: Meta)
    requires IsChain(commits, base, ids)
    ensures IsChain(commits + [Commit([Below(base, ids, |ids|)], meta)], base, ids + [|commits|])
  {
    var more := commits + [Commit([Below(base, ids, |ids|)], meta)];
    var longer := ids + [|commits|];
    ChainStable(commits, more, base, ids);
    forall k | 0 <= k < |longer|
      ensures Link(more, base, longer, k)
    {
      if k < |ids| { assert Link(more, base, ids, k); }
    }
  }

  // ------------------------------------------------------------ linear ranges

  /** A linear branch stays linear over anything integration has moved on to. */
  lemma LinearLater(commits: seq<Commit>, more: seq<Commit>, base: nat, tip: nat, integration: nat)
    requires CommitsOk(commits) && CommitsOk(more) && commits <= more
    requires base < |commits| && tip < |commits| && integration < |more|
    requires Ancestor(more, base, integration) && LinearRange(commits, base, tip)
    ensures LinearRange(more, integration, tip)
  {
    forall c | 0 <= c < |more| && Ancestor(more, c, tip) && !Ancestor(more, c, integration)
      ensures |more[c].parents| <= 1
    {
      AncestorOlder(more, c, tip);
      AncestorStable(commits, more, c, tip);
      AncestorStable(commits, more, c, base);
      if Ancestor(more, c, base) { AncestorTransitive(more, c, base, integration); }
      assert more[c] == commits[c];
    }
  }

  lemma ChainIsLinear(commits: seq<Commit>, base: nat, ids: seq<nat>)
    requires CommitsOk(commits) && base < |commits| && IsChain(commits, base, ids) && ids != []
    ensures LinearRange(commits, base, ids[|ids| - 1])
  {
    var tip := ids[|ids| - 1];
    forall c | 0 <= c < |commits| && Unique(commits, base, tip, c)
      ensures |commits[c].parents| <= 1
    {
      RangeMember(commits, base, tip, |commits|, c);
      ChainMember(commits, base, ids, c);
      var k :| 0 <= k < |ids| && ids[k] == c;
      assert Link(commits, base, ids, k);
    }
  }

  /** A commit put in the place of the tip of a linear branch keeps it linear. */
  lemma ReplacedTipIsLinear(commits: seq<Commit>, base: nat, tip: nat, tip': nat)
    requires CommitsOk(commits) && base < |commits| && tip < |commits| && tip' < |commits|
    requires LinearRange(commits, base, tip) && !Ancestor(commits, tip, base)
    requires commits[tip'].parents == commits[tip].parents
    ensures LinearRange(commits, base, tip')
  {
    forall c | 0 <= c < |commits| && Unique(commits, base, tip', c)
      ensures |commits[c].parents| <= 1
    {
      if c != tip' {
        var i :| 0 <= i < |commits[tip'].parents| && Ancestor(commits, c, commits[tip'].parents[i]);
        assert Ancestor(commits, c, commits[tip].parents[i]);
      }
    }
  }

  /** A commit put in the place of the only commit of a range is the only one again. */
  lemma ReplacedRange(commits: seq<Commit>, base: nat, tip: nat, tip': nat)
    requires CommitsOk(commits) && base < |commits| && tip < |commits| && tip' < |commits|
    requires |Range(commits, base, tip)| == 1 && commits[tip'].parents == commits[tip].parents
    ensures Range(commits, base, tip) == [tip]
    ensures Range(commits, base, tip') == [] || Range(commits, base, tip') == [tip']
  {
    var ids := Range(commits, base, tip');
    OnlyTip(commits, base, tip);
    RangeAscends(commits, base, tip', |commits|);
    FirstTwo(ids);
    forall k | 0 <= k < |ids|
      ensures ids[k] == tip'
    {
      RangeMember(commits, base, tip', |commits|, ids[k]);
      if ids[k] != tip' { NotBelow(commits, base, tip, tip', ids[k]); }
    }
  }

  lemma FirstTwo(ids: seq<nat>)
    requires Ascending(ids)
    ensures |ids| > 1 ==> ids[0] < ids[1]
  {
  }

  lemma OnlyTip(commits: seq<Commit>, base: nat, tip: nat)
    requires CommitsOk(commits) && base < |commits| && tip < |commits| && |Range(commits, base, tip)| == 1
    ensures Range(commits, base, tip) == [tip]
  {
    if Ancestor(commits, tip, base) { NothingAdded(commits, base, tip); }
    RangeMember(commits, base, tip, |commits|, tip);
  }

  /** What is below the only commit of a range is in its base. */
  lemma NotBelow(commits: seq<Commit>, base: nat, tip: nat, tip': nat, c: nat)
    requires CommitsOk(commits) && base < |commits| && tip < |commits| && tip' < |commits|
    requires Range(commits, base, tip) == [tip] && commits[tip'].parents == commits[tip].parents
    requires c < |commits| && c != tip' && Ancestor(commits, c, tip')
    ensures Ancestor(commits, c, base)
  {
    var i :| 0 <= i < |commits[tip'].parents| && Ancestor(commits, c, commits[tip'].parents[i]);
    AncestorOlder(commits, c, commits[tip].parents[i]);
    RangeMember(commits, base, tip, |commits|, c);
    assert Ancestor(commits, c, tip) && c != tip;
  }

  /** A branch that integration has already adds nothing to it. */
  lemma NothingAdded(commits: seq<Commit>, base: nat, tip: nat)
    requires CommitsOk(commits) && base < |commits| && tip < |commits| && Ancestor(commits, tip, base)
    ensures Range(commits, base, tip) == []
  {
    var ids := Range(commits, base, tip);
    if ids != [] {
      RangeMember(commits, base, tip, |commits|, ids[0]);
      AncestorTransitive(commits, ids[0], tip, base);
    }
  }

  // ------------------------------------------------------------ the work on a branch

  /** Who wrote a commit, and when. */
  datatype Author = Author(name: string, email: string, date: string)

  function AuthorOf(m: Meta): Author {
    Author(m.name, m.email, m.date)
  }

  /** The authors of the first n of the listed commits. */
  function Authors(commits: seq<Commit>, ids: seq<nat>, n: nat): (authors: seq<Author>)
    requires n <= |ids|
    ensures |authors| == n
  {
    if n == 0 then []
    else
      Authors(commits, ids, n - 1)
      + [if ids[n - 1] < |commits| then AuthorOf(commits[ids[n - 1]].meta) else Author("", "", "")]
  }

  /** The authors of the commits of exclude..tip, oldest first. */
  function Work(commits: seq<Commit>, exclude: nat, tip: nat): seq<Author>
    requires CommitsOk(commits) && exclude < |commits| && tip < |commits|
  {
    var ids := Range(commits, exclude, tip);
    Authors(commits, ids, |ids|)
  }

  /** Lists of commits by the same authors, entry by entry. */
  ghost predicate SameAuthors(commits: seq<Commit>, ids: seq<nat>, commits': seq<Commit>, ids': seq<nat>) {
    |ids| == |ids'|
    && forall k | 0 <= k < |ids| :: ids[k] < |commits| && ids'[k] < |commits'|
         && AuthorOf(commits[ids[k]].meta) == AuthorOf(commits'[ids'[k]].meta)
  }

  lemma {:induction false} AuthorsSame(commits: seq<Commit>, ids: seq<nat>, commits': seq<Commit>, ids': seq<nat>,
                                       n: nat)
    requires SameAuthors(commits, ids, commits', ids') && n <= |ids|
    ensures Authors(commits, ids, n) == Authors(commits', ids', n)
  {
    if n > 0 { AuthorsSame(commits, ids, commits', ids', n - 1); }
  }

  /** a is b without some of its entries. */
  ghost predicate Kept<T>(a: seq<T>, b: seq<T>)
    decreases |b|
  {
    a == []
    || (b != []
        && (Kept(a, b[..|b| - 1]) || (a[|a| - 1] == b[|b| - 1] && Kept(a[..|a| - 1], b[..|b| - 1]))))
  }

  lemma KeptMore<T>(a: seq<T>, b: seq<T>, x: T)
    requires Kept(a, b)
    ensures Kept(a, b + [x]) && Kept(a + [x], b + [x])
  {
    assert (b + [x])[..|b|] == b && (a + [x])[..|a|] == a;
  }

  lemma {:induction false} KeptSelf<T>(a: seq<T>)
    ensures Kept(a, a)
  {
    if a != [] { KeptSelf(a[..|a| - 1]); }
  }

  lemma {:induction false} KeptTransitive<T>(a: seq<T>, b: seq<T>, c: seq<T>)
    requires Kept(a, b) && Kept(b, c)
    ensures Kept(a, c)
    decreases |b| + |c|
  {
    if a != [] && b != [] {
      var b', c' := b[..|b| - 1], c[..|c| - 1];
      if Kept(b, c') {
        KeptTransitive(a, b, c');
      } else if Kept(a, b') {
        KeptTransitive(a, b', c');
      } else {
        KeptTransitive(a[..|a| - 1], b', c');
      }
    }
  }

  lemma {:induction false} AuthorsPrefix(commits: seq<Commit>, ids: seq<nat>, more: seq<nat>, n: nat)
    requires n <= |ids| && ids <= more
    ensures Authors(commits, more, n) == Authors(commits, ids, n)
  {
    if n > 0 { AuthorsPrefix(commits, ids, more, n - 1); }
  }

  /** New commits never change the work on a branch of old ones. */
  lemma WorkStable(commits: seq<Commit>, more: seq<Commit>, exclude: nat, tip: nat)
    requires CommitsOk(commits) && CommitsOk(more) && commits <= more && exclude < |commits| && tip < |commits|
    ensures Work(more, exclude, tip) == Work(commits, exclude, tip)
  {
    var ids := Range(commits, exclude, tip);
    RangeStable(commits, more, exclude, tip);
    RangeAscends(commits, exclude, tip, |commits|);
    AuthorsSame(commits, ids, more, ids, |ids|);
  }

  lemma {:induction false} AuthorsKept(commits: seq<Commit>, a: seq<nat>, b: seq<nat>)
    requires Kept(a, b)
    ensures Kept(Authors(commits, a, |a|), Authors(commits, b, |b|))
    decreases |b|
  {
    if a != [] {
      var a', b' := a[..|a| - 1], b[..|b| - 1];
      AuthorsPrefix(commits, b', b, |b'|);
      var rest, last := Authors(commits, b', |b'|), Authors(commits, b, |b|)[|b| - 1];
      if Kept(a, b') {
        AuthorsKept(commits, a, b');
        KeptMore(Authors(commits, a, |a|), rest, last);
      } else {
        AuthorsPrefix(commits, a', a, |a'|);
        AuthorsKept(commits, a', b');
        KeptMore(Authors(commits, a', |a'|), rest, last);
      }
    }
  }

  lemma InLess(commits: seq<Commit>, base: nat, later: nat, tip: nat, c: nat)
    requires CommitsOk(commits) && base < |commits| && later < |commits| && tip < |commits| && c < |commits|
    requires Ancestor(commits, base, later)
    ensures Unique(commits, later, tip, c) ==> Unique(commits, base, tip, c)
  {
    if Ancestor(commits, c, base) { AncestorTransitive(commits, c, base, later); }
  }

  /** Over a later integration tip a branch lists less, in the same order. */
  lemma {:induction false} RangeShrinks(commits: seq<Commit>, base: nat, later: nat, tip: nat, n: nat)
    requires CommitsOk(commits) && base < |commits| && later < |commits| && tip < |commits| && n <= |commits|
    requires Ancestor(commits, base, later)
    ensures Kept(RangeUpTo(commits, later, tip, n), RangeUpTo(commits, base, tip, n))
  {
    if n > 0 {
      RangeShrinks(commits, base, later, tip, n - 1);
      InLess(commits, base, later, tip, n - 1);
      KeptMore<nat>(RangeUpTo(commits, later, tip, n - 1), RangeUpTo(commits, base, tip, n - 1), n - 1);
    }
  }

  /** The branch at tip adds no merge commit to integration. */
  ghost predicate LinearBranch(w: World, tip: nat) {
    WorldOk(w) && tip < |w.commits| && LinearRange(w.commits, w.integration, tip)
  }

  lemma LinearStable(w: World, w': World, tip: nat)
    requires Forward(w, w') && LinearBranch(w, tip)
    ensures LinearBranch(w', tip)
  {
    LinearLater(w.commits, w'.commits, w.integration, tip, w'.integration);
  }

  /** What tip' adds to integration in w' is what tip added in w, in order and with the same
      authors and dates, possibly without some of it. */
  ghost predicate Lasts(w: World, tip: nat, w': World, tip': nat) {
    WorldOk(w) && WorldOk(w') && tip < |w.commits| && tip' < |w'.commits|
    && Kept(Work(w'.commits, w'.integration, tip'), Work(w.commits, w.integration, tip))
  }

  lemma LastsForward(w: World, w': World, tip: nat)
    requires Forward(w, w') && tip < |w.commits|
    ensures Lasts(w, tip, w', tip)
  {
    WorkStable(w.commits, w'.commits, w.integration, tip);
    RangeShrinks(w'.commits, w.integration, w'.integration, tip, |w'.commits|);
    AuthorsKept(w'.commits, Range(w'.commits, w'.integration, tip), Range(w'.commits, w.integration, tip));
  }

  /** The work lasts, and no merge joins it. */
  ghost predicate Keeps(w: World, tip: nat, w': World, tip': nat) {
    Lasts(w, tip, w', tip') && (LinearBranch(w, tip) ==> LinearBranch(w', tip'))
  }

  lemma KeepsForward(w: World, w': World, tip: nat)
    requires Forward(w, w') && tip < |w.commits|
    ensures Keeps(w, tip, w', tip)
  {
    LastsForward(w, w', tip);
    if LinearBranch(w, tip) { LinearStable(w, w', tip); }
  }

  lemma KeepsTransitive(w: World, tip: nat, w1: World, tip1: nat, w': World, tip': nat)
    requires Keeps(w, tip, w1, tip1) && Keeps(w1, tip1, w', tip')
    ensures Keeps(w, tip, w', tip')
  {
    LastsTransitive(w, tip, w1, tip1, w', tip');
  }

  /** The world with integration where it was when the command ran. */
  function At(w: World, r: Record): World {
    w.(integration := r.integration)
  }

  lemma LastsSame(w: World, tip: nat, w': World, tip': nat)
    requires WorldOk(w) && WorldOk(w') && tip < |w.commits| && tip' < |w'.commits|
    requires Work(w'.commits, w'.integration, tip') == Work(w.commits, w.integration, tip)
    ensures Lasts(w, tip, w', tip')
  {
    KeptSelf(Work(w.commits, w.integration, tip));
  }

  /** The same, seen from a world with more commits. */
  lemma LastsSince(w: World, w1: World, tip: nat, w': World, tip': nat)
    requires Lasts(w, tip, w', tip') && WorldOk(w1) && w.commits <= w1.commits && w1.integration == w.integration
    ensures Lasts(w1, tip, w', tip')
  {
    WorkStable(w.commits, w1.commits, w.integration, tip);
  }

  lemma LastsTransitive(w: World, tip: nat, w1: World, tip1: nat, w': World, tip': nat)
    requires Lasts(w, tip, w1, tip1) && Lasts(w1, tip1, w', tip')
    ensures Lasts(w, tip, w', tip')
  {
    KeptTransitive(Work(w'.commits, w'.integration, tip'), Work(w1.commits, w1.integration, tip1),
                   Work(w.commits, w.integration, tip));
  }

  // ------------------------------------------------------------ steps and runs

  datatype Entry = Entry(seat: string, command: Command, world: World)

  ghost predicate SameRefs(w: World, w': World) {
    w'.commits == w.commits && w'.integration == w.integration
  }

  /** What a command may do to integration and to its own seat, from s to s', history of
      commands aside. */
  ghost predicate Effect(command: Command, w: World, s: Seat, w': World, s': Seat)
    requires WorldOk(w) && WorldOk(w') && s.tip < |w.commits| && s'.tip < |w'.commits|
  {
    match command
    case Begin => SameRefs(w, w') && s' == s.(passed := None)
    case Query(_) => SameRefs(w, w') && s' == s
    case Nothing => SameRefs(w, w') && s' == s
    case Ancestry(merged) => SameRefs(w, w') && s' == s && merged == Ancestor(w.commits, s.tip, w.integration)
    case List(revs) => SameRefs(w, w') && s' == s && revs == Range(w.commits, w.integration, s.tip)
    case Merges(count) =>
      SameRefs(w, w') && s' == s && count == MergesUpTo(w.commits, w.integration, s.tip, |w.commits|)
    case Rewrite => w'.integration == w.integration && Rewrites(s, s')
    case Rebase(exit) =>
      w'.integration == w.integration && Rewrites(s, s')
      && if exit == Ok then
           s'.head == OnBranch && Ancestor(w'.commits, w.integration, s'.tip) && Keeps(w, s.tip, w', s'.tip)
         else s'.tip == s.tip
    case Detach => SameRefs(w, w') && s' == s.(head := Detached(w.integration))
    case Checkout(done) => SameRefs(w, w') && s' == if done then s.(head := OnBranch) else s
    case Pick(_) => SameRefs(w, w') && s' == s
    case Force(target, done) =>
      SameRefs(w, w') && (done ==> s.head.Detached?) && s' == if done then s.Moved(target) else s
    case Gate(passed) =>
      // the commit the gate ran on is the branch tip
      SameRefs(w, w') && (passed ==> s.HeadCommit() == s.tip)
      && s' == s.(passed := if passed then Some(s.tip) else None)
    case FastForward(exit) =>
      w'.commits == w.commits
      && if exit == Ok then
           s.passed == Some(s.tip) && s' == s.(landed := s.landed + [s.tip])
           && (w'.integration == s.tip || w'.integration == w.integration)
           && Ancestor(w.commits, w.integration, w'.integration) && Ancestor(w.commits, s.tip, w'.integration)
         else w'.integration == w.integration && s' == s
  }

  /** New commits and moves of HEAD and the branch; moving the branch forgets the gate. */
  ghost predicate Rewrites(s: Seat, s': Seat) {
    s'.landed == s.landed && s'.passed == if s'.tip == s.tip then s.passed else None
  }

  /** What one step of one seat may do to the shared world. */
  ghost predicate Step(seat: string, command: Command, w: World, w': World) {
    && WorldOk(w) && WorldOk(w') && w.commits <= w'.commits
    && seat in w.seats && w'.seats.Keys == w.seats.Keys
    && (forall s | s in w.seats && s != seat :: w'.seats[s] == w.seats[s])
    && var s, s' := w.seats[seat], w'.seats[seat];
       s'.log == s.log + [Record(command, w.integration, s'.tip)]
       && s'.tally == s.tally.After(command)
       && Effect(command, w, s, w', s'.(tally := s.tally, log := s.log))
  }

  /** The world in which the seat's command left it as s. */
  function Put(w: World, seat: string, command: Command, s: Seat): World {
    w.(seats := w.seats[seat := s.Noted(command, w.integration)])
  }

  /** The world after a commit in the seat's worktree; an amend takes over the parents of HEAD. */
  function WithCommit(w: World, seat: string, amend: bool, meta: Meta): World
    requires seat in w.seats && w.seats[seat].HeadCommit() < |w.commits|
  {
    var s := w.seats[seat];
    var parents := if amend then w.commits[s.HeadCommit()].parents else [s.HeadCommit()];
    Put(w.(commits := w.commits + [Commit(parents, meta)]), seat, Rewrite, s.Committed(|w.commits|))
  }

  lemma WithCommitStep(w: World, seat: string, amend: bool, meta: Meta)
    requires WorldOk(w) && seat in w.seats && MetaOk(meta)
    ensures Step(seat, Rewrite, w, WithCommit(w, seat, amend, meta))
  {
    var w' := WithCommit(w, seat, amend, meta);
    assert CommitsOk(w'.commits) by {
      assert forall c | 0 <= c < |w.commits| :: w'.commits[c] == w.commits[c];
    }
  }

  /** merge --ff-only of the seat's branch, when git accepts it. */
  function Merged(w: World, seat: string, behind: bool): World
    requires seat in w.seats
  {
    var s := w.seats[seat];
    var w' := Put(w, seat, FastForward(Ok), s.(landed := s.landed + [s.tip]));
    if behind then w' else w'.(integration := s.tip)
  }

  lemma MergedStep(w: World, seat: string, behind: bool)
    requires WorldOk(w) && seat in w.seats && w.seats[seat].passed == Some(w.seats[seat].tip)
    requires if behind then Ancestor(w.commits, w.seats[seat].tip, w.integration)
             else Ancestor(w.commits, w.integration, w.seats[seat].tip)
    ensures Step(seat, FastForward(Ok), w, Merged(w, seat, behind))
    ensures Ancestor(w.commits, w.seats[seat].tip, Merged(w, seat, behind).integration)
  {
  }

  /** What a fast-forward puts into integration is what the branch had and integration had not. */
  lemma AddedByFastForward(w: World, w': World, seat: string, exit: Exit, c: nat)
    requires Step(seat, FastForward(exit), w, w')
    requires Ancestor(w'.commits, c, w'.integration) && !Ancestor(w.commits, c, w.integration)
    ensures exit == Ok && Ancestor(w'.commits, c, w'.seats[seat].tip)
    ensures w'.seats[seat].log[|w'.seats[seat].log| - 1] == Record(FastForward(Ok), w.integration, w.seats[seat].tip)
  {
    var s, s' := w.seats[seat], w'.seats[seat];
    assert w'.commits == w.commits && w'.integration == s.tip && s'.tip == s.tip;
  }

  ghost predicate StepAt(run: seq<Entry>, i: nat)
    requires 0 < i < |run|
  {
    Step(run[i].seat, run[i].command, run[i - 1].world, run[i].world)
  }

  ghost predicate ValidRun(run: seq<Entry>) {
    run != [] && WorldOk(run[0].world) && forall i | 0 < i < |run| :: StepAt(run, i)
  }

  /** Commits are only added and integration only moves to descendants. */
  ghost predicate Forward(w: World, w': World) {
    WorldOk(w) && WorldOk(w') && w.commits <= w'.commits && Ancestor(w'.commits, w.integration, w'.integration)
  }

  /** What a seat can rely on while others act: its own state stays and the world moves forward. */
  ghost predicate Rely(seat: string, w: World, w': World) {
    Forward(w, w') && w'.seats.Keys == w.seats.Keys && (seat in w.seats ==> w'.seats[seat] == w.seats[seat])
  }

  lemma StepForward(seat: string, command: Command, w: World, w': World)
    requires Step(seat, command, w, w')
    ensures Forward(w, w')
  {
    if w'.integration != w.integration { AncestorStable(w.commits, w'.commits, w.integration, w'.integration); }
  }

  lemma ForwardTransitive(w: World, w1: World, w2: World)
    requires Forward(w, w1) && Forward(w1, w2)
    ensures Forward(w, w2)
  {
    AncestorStable(w1.commits, w2.commits, w.integration, w1.integration);
    AncestorTransitive(w2.commits, w.integration, w1.integration, w2.integration);
  }

  /** Steps of other seats, however many, give exactly what a seat relies on. */
  lemma {:induction false} OthersKeepRely(seat: string, run: seq<Entry>, from: nat, later: nat)
    requires ValidRun(run) && from <= later < |run|
    requires forall i | from < i <= later :: run[i].seat != seat
    ensures Rely(seat, run[from].world, run[later].world)
    decreases later
  {
    RunOk(run, from);
    if from < later {
      var w, w' := run[later - 1].world, run[later].world;
      OthersKeepRely(seat, run, from, later - 1);
      assert StepAt(run, later);
      StepForward(run[later].seat, run[later].command, w, w');
      ForwardTransitive(run[from].world, w, w');
    }
  }

  lemma RunOk(run: seq<Entry>, i: nat)
    requires ValidRun(run) && i < |run|
    ensures WorldOk(run[i].world)
  {
    if i > 0 { assert StepAt(run, i); }
  }

  /** The commands that the entries after from, up to later, say the seat ran. */
  ghost function Ran(run: seq<Entry>, from: nat, later: nat, seat: string): seq<Record>
    requires from <= later < |run|
    decreases later
  {
    if from == later then []
    else
      Ran(run, from, later - 1, seat)
      + if run[later].seat == seat && seat in run[later].world.seats
        then [Record(run[later].command, run[later - 1].world.integration, run[later].world.seats[seat].tip)]
        else []
  }

  /** A seat's history of commands is what the run says, command by command. */
  lemma {:induction false} LogIsTheRun(run: seq<Entry>, from: nat, later: nat, seat: string)
    requires ValidRun(run) && from <= later < |run| && seat in run[from].world.seats
    ensures seat in run[later].world.seats
    ensures run[later].world.seats[seat].log == run[from].world.seats[seat].log + Ran(run, from, later, seat)
    decreases later
  {
    if from < later {
      LogIsTheRun(run, from, later - 1, seat);
      assert StepAt(run, later);
    }
  }

  /** Commands from up to to are neither gates nor fast-forwards. */
  ghost predicate Quiet(log: seq<Record>, from: nat, to: nat) {
    from <= to <= |log| && forall i | from <= i < to :: Plain(log[i].command)
  }

  /** Some command from from on was answered with a conflict. */
  ghost predicate Conflicted(log: seq<Record>, from: nat) {
    exists i :: from <= i < |log| && Conflicting(log[i].command)
  }

  /** Commands from up to to were neither refused nor answered with no. */
  ghost predicate Accepted(log: seq<Record>, from: nat, to: nat) {
    from <= to <= |log| && forall i | from <= i < to :: !Stops(log[i].command)
  }

  /** What the counts of a seat say about the commands it ran between s and s'. */
  ghost predicate Tallied(s: Seat, s': Seat) {
    var t, t' := s.tally, s'.tally;
    s.log <= s'.log && t.gates <= t'.gates && t.attempts <= t'.attempts && t.conflicts <= t'.conflicts
    && t.refusals <= t'.refusals && (t.refusals == t'.refusals <==> Accepted(s'.log, |s.log|, |s'.log|))
    && (t.gates == t'.gates && t.attempts == t'.attempts <==> Quiet(s'.log, |s.log|, |s'.log|))
    && (t.conflicts < t'.conflicts <==> Conflicted(s'.log, |s.log|))
  }

  lemma TalliedOnce(s: Seat, s1: Seat, s': Seat, r: Record)
    requires Tallied(s, s1) && s'.log == s1.log + [r] && s'.tally == s1.tally.After(r.command)
    ensures Tallied(s, s')
  {
    assert s'.log[|s1.log|] == r && forall i | 0 <= i < |s1.log| :: s'.log[i] == s1.log[i];
  }

  lemma TalliedSince(s: Seat, s1: Seat, s': Seat)
    requires Tallied(s, s1) && Tallied(s1, s')
    ensures Tallied(s, s')
  {
    assert forall i | 0 <= i < |s1.log| :: s'.log[i] == s1.log[i];
  }

  lemma TalliedStep(s: Seat, actor: string, command: Command, w: World, w': World, seat: string)
    requires Step(actor, command, w, w') && seat in w.seats && Tallied(s, w.seats[seat])
    ensures seat in w'.seats && Tallied(s, w'.seats[seat])
  {
    if actor == seat { TalliedOnce(s, w.seats[seat], w'.seats[seat], w'.seats[seat].log[|w.seats[seat].log|]); }
  }

  /** In every run the counts of a seat are those of its commands. */
  lemma {:induction false} TallyIsTheLog(run: seq<Entry>, from: nat, later: nat, seat: string)
    requires ValidRun(run) && from <= later < |run| && seat in run[from].world.seats
    ensures seat in run[later].world.seats
    ensures Tallied(run[from].world.seats[seat], run[later].world.seats[seat])
    decreases later
  {
    if from < later {
      TallyIsTheLog(run, from, later - 1, seat);
      assert StepAt(run, later);
      TalliedStep(run[from].world.seats[seat], run[later].seat, run[later].command, run[later - 1].world,
                  run[later].world, seat);
    }
  }

  // ------------------------------------------------------------ safety over whole runs

  /** In every run, whatever the interleaving, integration only moves to descendants. */
  lemma {:induction false} IntegrationOnlyMovesForward(run: seq<Entry>, from: nat, later: nat)
    requires ValidRun(run) && from <= later < |run|
    ensures Forward(run[from].world, run[later].world)
    decreases later
  {
    RunOk(run, from);
    if from < later {
      var w, w' := run[later - 1].world, run[later].world;
      IntegrationOnlyMovesForward(run, from, later - 1);
      assert StepAt(run, later);
      StepForward(run[later].seat, run[later].command, w, w');
      ForwardTransitive(run[from].world, w, w');
    }
  }

  /** Entry g is the gate of this seat passing on commit c. */
  ghost predicate GatePassed(run: seq<Entry>, g: nat, seat: string, c: nat) {
    0 < g < |run| && run[g].seat == seat && run[g].command == Gate(true)
    && seat in run[g - 1].world.seats && run[g - 1].world.seats[seat].HeadCommit() == c
    && seat in run[g].world.seats && run[g].world.seats[seat].passed == Some(c)
  }

  /** From entry g to entry i the seat starts no new landing and its branch stays at c. */
  ghost predicate Untouched(run: seq<Entry>, g: nat, i: nat, seat: string, c: nat) {
    g <= i < |run|
    && (forall k | g <= k <= i :: seat in run[k].world.seats && run[k].world.seats[seat].tip == c)
    && forall k | g < k <= i :: run[k].seat == seat ==> run[k].command != Begin
  }

  /** One step before a recorded pass: the gate ran, or the pass was recorded already and
      the branch stayed. */
  lemma PassBefore(actor: string, command: Command, w: World, w': World, seat: string, c: nat)
    requires Step(actor, command, w, w') && seat in w'.seats && w'.seats[seat].passed == Some(c)
    ensures (actor == seat && command == Gate(true) && w.seats[seat].HeadCommit() == w'.seats[seat].tip == c)
            || (w.seats[seat].passed == Some(c) && w'.seats[seat].tip == w.seats[seat].tip
                && (actor == seat ==> command != Begin))
  {
  }

  /** A recorded pass comes from a gate that ran on this very commit in this landing, after
      the last rewrite of the branch. */
  lemma {:induction false} PassComesFromGate(run: seq<Entry>, i: nat, seat: string, c: nat) returns (g: nat)
    requires ValidRun(run) && i < |run| && forall s | s in run[0].world.seats :: run[0].world.seats[s].passed == None
    requires seat in run[i].world.seats && run[i].world.seats[seat].passed == Some(c)
    ensures 0 < g <= i && GatePassed(run, g, seat, c) && Untouched(run, g, i, seat, c)
  {
    assert i > 0 && StepAt(run, i);
    g := i;
    PassBefore(run[i].seat, run[i].command, run[i - 1].world, run[i].world, seat, c);
    if !(run[i].seat == seat && run[i].command == Gate(true) && run[i - 1].world.seats[seat].HeadCommit() == c) {
      g := PassComesFromGate(run, i - 1, seat, c);
      StillUntouched(run, g, i, seat, c);
    }
  }

  lemma StillUntouched(run: seq<Entry>, g: nat, i: nat, seat: string, c: nat)
    requires 0 < i < |run| && Untouched(run, g, i - 1, seat, c)
    requires seat in run[i].world.seats && run[i].world.seats[seat].tip == c
    requires run[i].seat == seat ==> run[i].command != Begin
    ensures Untouched(run, g, i, seat, c)
  {
  }

  lemma LandingStep(seat: string, command: Command, w: World, w': World)
    requires Step(seat, command, w, w') && w'.integration != w.integration
    ensures w.seats[seat].passed == Some(w'.integration) && w'.seats[seat].tip == w'.integration
    ensures command != Begin
  {
  }

  /** In every run, every new integration tip is the exact commit on which the gate of the
      landing seat passed in that landing, with no rewrite in between. */
  lemma EveryTipWasGated(run: seq<Entry>, i: nat) returns (g: nat)
    requires ValidRun(run) && 0 < i < |run|
    requires forall s | s in run[0].world.seats :: run[0].world.seats[s].passed == None
    requires run[i].world.integration != run[i - 1].world.integration
    ensures g < i && GatePassed(run, g, run[i].seat, run[i].world.integration)
    ensures Untouched(run, g, i, run[i].seat, run[i].world.integration)
  {
    var seat, c := run[i].seat, run[i].world.integration;
    assert StepAt(run, i);
    LandingStep(seat, run[i].command, run[i - 1].world, run[i].world);
    g := PassComesFromGate(run, i - 1, seat, c);
  }

  ghost predicate LandedTipsReachable(w: World) {
    WorldOk(w) && forall s, k | s in w.seats && 0 <= k < |w.seats[s].landed| ::
      w.seats[s].landed[k] < |w.commits| && Ancestor(w.commits, w.seats[s].landed[k], w.integration)
  }

  /** In every run, whatever a seat has landed stays in integration. */
  lemma {:induction false} LandedStaysLanded(run: seq<Entry>, i: nat)
    requires ValidRun(run) && i < |run| && LandedTipsReachable(run[0].world)
    ensures LandedTipsReachable(run[i].world)
  {
    if i > 0 {
      LandedStaysLanded(run, i - 1);
      assert StepAt(run, i);
      StepKeepsLanded(run[i].seat, run[i].command, run[i - 1].world, run[i].world);
    }
  }

  lemma StepKeepsLanded(seat: string, command: Command, w: World, w': World)
    requires Step(seat, command, w, w') && LandedTipsReachable(w)
    ensures LandedTipsReachable(w')
  {
    StepForward(seat, command, w, w');
    forall s, k | s in w'.seats && 0 <= k < |w'.seats[s].landed|
      ensures w'.seats[s].landed[k] < |w'.commits| && Ancestor(w'.commits, w'.seats[s].landed[k], w'.integration)
    {
      var c := w'.seats[s].landed[k];
      if s in w.seats && k < |w.seats[s].landed| && w.seats[s].landed[k] == c {
        AncestorStable(w.commits, w'.commits, c, w.integration);
        AncestorTransitive(w'.commits, c, w.integration, w'.integration);
      } else {
        AncestorStable(w.commits, w'.commits, c, w'.integration);
      }
    }
  }
}
