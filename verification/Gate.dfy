/** The review gate of internal/gate: which epics may be reviewed, which sessions are reviewing,
    and what their verdicts do. Foreign calls answer through parameters. */
module Gate {
  import opened Text

  datatype Key = Key(repo: string, epic: string)

  /** What the gate does to the outside: the comment about a used-up budget, a verdict applied,
      and the points where state was cleared. */
  datatype Post = Exhausted(key: Key) | Applied(handle: string, key: Key) | Cleared(scope: Scope)

  /** What a clearing covers: an approved epic, a repository that is reset, or everything. */
  datatype Scope = One(key: Key) | OfRepo(repo: string) | Everything {
    predicate Covers(k: Key) {
      match this case One(key) => k == key case OfRepo(repo) => k.repo == repo case Everything => true
    }
  }

  datatype Verdict = Approved | Drift | Unparseable

  const DEFAULT_MAX_RETRIES: nat := 3

  /** attempted and started have an entry once something was recorded; noted is every handle ever
      noted. */
  datatype State = State(attempted: map<Key, nat>, exhausted: set<Key>, tracked: map<string, Key>,
                         started: map<Key, string>, posts: seq<Post>, noted: set<string>)
  {
    function Attempts(k: Key): nat {
      if k in attempted then attempted[k] else 0
    }

    /** A session is reviewing something in the repository. */
    predicate InFlight(repo: string) {
      exists h :: h in tracked && tracked[h].repo == repo
    }

    function Noted(handle: string, k: Key): State {
      this.(tracked := tracked[handle := k], attempted := attempted[k := Attempts(k) + 1], noted := noted + {handle})
    }

    function Dropped(handle: string): State {
      this.(tracked := tracked - {handle})
    }

    function Clear(scope: Scope): State {
      this.(attempted := Uncovered(attempted, scope), exhausted := (set k | k in exhausted && !scope.Covers(k)),
            started := Uncovered(started, scope), tracked := Unreviewed(tracked, scope),
            posts := posts + [Cleared(scope)])
    }

    /** The request finds the budget used up. */
    predicate Spent(k: Key, max: nat) {
      !InFlight(k.repo) && Attempts(k) >= max
    }

    /** The request is granted; sha is the start commit, None when git fails. */
    predicate Grants(k: Key, max: nat, sha: Option<string>) {
      !InFlight(k.repo) && Attempts(k) < max && (k in started || sha.Some?)
    }

    /** A review was asked for an epic whose children are closed. */
    function Asked(k: Key, max: nat, sha: Option<string>): State {
      if Spent(k, max) then
        if k in exhausted then this else this.(exhausted := exhausted + {k}, posts := posts + [Exhausted(k)])
      else if Grants(k, max, sha) && k !in started then this.(started := started[k := sha.value])
      else this
    }

    /** A tracked session ended with a verdict. */
    function Completed(handle: string, known: bool, verdict: Verdict, closed: bool): State {
      if handle !in tracked then this
      else
        var k := tracked[handle];
        if !known then Dropped(handle)
        else
          var after := Dropped(handle).(posts := posts + [Applied(handle, k)]);
          if verdict == Approved && closed then after.Clear(One(k)) else after
    }
  }

  function Uncovered<V>(m: map<Key, V>, scope: Scope): map<Key, V> {
    map k | k in m && !scope.Covers(k) :: m[k]
  }

  function Unreviewed(tracked: map<string, Key>, scope: Scope): map<string, Key> {
    map h | h in tracked && !scope.Covers(tracked[h]) :: tracked[h]
  }

  function KeyOf(repo: string, epic: string): Option<Key> {
    if repo == "" || epic == "" then None else Some(Key(repo, epic))
  }

  /** Different repositories or epics never share a key, and only a blank one has none. */
  lemma KeysDiffer(repo: string, epic: string, repo': string, epic': string)
    ensures KeyOf(repo, epic).Some? <==> repo != "" && epic != ""
    ensures KeyOf(repo, epic).Some? ==> KeyOf(repo, epic).value.repo == repo && KeyOf(repo, epic).value.epic == epic
    ensures KeyOf(repo, epic).Some? && KeyOf(repo, epic) == KeyOf(repo', epic') ==> repo == repo' && epic == epic'
  {
  }

  /** A review is granted exactly when no session reviews in the repository, the epic was tried less often
      than allowed, and a start commit is recorded or can be read. */
  lemma GrantExactly(s: State, k: Key, max: nat, sha: Option<string>)
    ensures s.Grants(k, max, sha) <==>
              (forall h | h in s.tracked :: s.tracked[h].repo != k.repo)
              && (if k in s.attempted then s.attempted[k] < max else 0 < max) && (k in s.started || sha.Some?)
  {
  }

  /** What asking for a review changes: a first start commit when it is granted, and the one comment about
      a used-up budget, which is posted exactly when nobody reviews there and it was not posted yet. */
  lemma AskExactly(s: State, k: Key, max: nat, sha: Option<string>)
    ensures var next := s.Asked(k, max, sha);
            next.attempted == s.attempted && next.tracked == s.tracked && next.noted == s.noted
            && (forall other | other != k :: other in next.started <==> other in s.started)
            && (forall other | other in s.started :: other in next.started && next.started[other] == s.started[other])
            && (k !in s.started ==>
                  (k in next.started <==> s.Grants(k, max, sha))
                  && (k in next.started ==> sha == Some(next.started[k])))
    ensures var next := s.Asked(k, max, sha);
            if (forall h | h in s.tracked :: s.tracked[h].repo != k.repo) && s.Attempts(k) >= max && k !in s.exhausted
            then next.posts == s.posts + [Exhausted(k)] && next.exhausted == s.exhausted + {k}
            else next.posts == s.posts && next.exhausted == s.exhausted
  {
  }

  /** A completed review leaves its session and posts its verdict when the repository is known; all that is
      recorded of the epic is forgotten exactly when it was approved and closed. */
  lemma CompleteExactly(s: State, handle: string, known: bool, verdict: Verdict, closed: bool, k: Key)
    requires handle in s.tracked
    ensures var next := s.Completed(handle, known, verdict, closed);
            handle !in next.tracked && next.noted == s.noted
            && (known ==> |next.posts| > |s.posts| && next.posts[|s.posts|] == Applied(handle, s.tracked[handle]))
            && (!known ==> next.posts == s.posts)
    ensures var next := s.Completed(handle, known, verdict, closed);
            if known && verdict == Approved && closed && k == s.tracked[handle] then
              k !in next.attempted && k !in next.exhausted && k !in next.started
            else
              (k in next.attempted <==> k in s.attempted)
              && (k in s.attempted ==> next.attempted[k] == s.attempted[k])
              && (k in next.exhausted <==> k in s.exhausted) && (k in next.started <==> k in s.started)
  {
  }

  /** A clearing forgets exactly what it covers: one epic, the epics of a repository, or all. */
  lemma ClearExactly(s: State, scope: Scope, k: Key)
    ensures var next := s.Clear(scope);
            var covered :=
              match scope case One(key) => key == k case OfRepo(repo) => repo == k.repo case Everything => true;
            (k in next.attempted <==> k in s.attempted && !covered)
            && (k in next.exhausted <==> k in s.exhausted && !covered)
            && (k in next.started <==> k in s.started && !covered)
            && forall h | h in s.tracked && s.tracked[h] == k :: h in next.tracked <==> !covered
  {
  }

  // ------------------------------------------------------------ runs

  /** One whole handler. Review asks for an epic and, when granted, starts a session on it unless
      the start fails; a session's handle was never used before. */
  datatype Action =
    | Review(key: Key, sha: Option<string>, session: Option<string>)
    | Complete(handle: string, known: bool, verdict: Verdict, closed: bool)
    | Abort(handle: string)
    | Reset(scope: Scope)

  predicate Allowed(s: State, a: Action) {
    a.Review? && a.session.Some? ==> a.session.value !in s.noted
  }

  function Next(s: State, max: nat, a: Action): State {
    match a
    case Review(k, sha, handle) =>
      var asked := s.Asked(k, max, sha);
      if s.Grants(k, max, sha) && handle.Some? then asked.Noted(handle.value, k) else asked
    case Complete(handle, known, verdict, closed) => s.Completed(handle, known, verdict, closed)
    case Abort(handle) => s.Dropped(handle)
    case Reset(scope) => s.Clear(scope)
  }

  const START := State(map[], {}, map[], map[], [], {})

  function Run(max: nat, actions: seq<Action>): State {
    if actions == [] then START else Next(Run(max, actions[..|actions| - 1]), max, actions[|actions| - 1])
  }

  ghost predicate RunAllowed(max: nat, actions: seq<Action>) {
    actions == []
    || (RunAllowed(max, actions[..|actions| - 1])
        && Allowed(Run(max, actions[..|actions| - 1]), actions[|actions| - 1]))
  }

  // ------------------------------------------------------------ what every run keeps

  ghost predicate OneReviewEach(s: State) {
    forall h, k | h in s.tracked && k in s.tracked && s.tracked[h].repo == s.tracked[k].repo :: h == k
  }

  ghost predicate WithinBudget(s: State, max: nat) {
    forall k: Key :: s.Attempts(k) <= max
  }

  predicate Clears(p: Post, k: Key) {
    p.Cleared? && p.scope.Covers(k)
  }

  /** The exhaustion comment for k was posted since k was last cleared. */
  predicate Posted(posts: seq<Post>, k: Key) {
    posts != []
    && (posts[|posts| - 1] == Exhausted(k) || (!Clears(posts[|posts| - 1], k) && Posted(posts[..|posts| - 1], k)))
  }

  /** It is never posted again before the next clearing. */
  ghost predicate PostedOnce(posts: seq<Post>, k: Key) {
    posts == []
    || (PostedOnce(posts[..|posts| - 1], k)
        && (posts[|posts| - 1] == Exhausted(k) ==> !Posted(posts[..|posts| - 1], k)))
  }

  predicate HasVerdict(posts: seq<Post>, handle: string) {
    exists i :: 0 <= i < |posts| && posts[i].Applied? && posts[i].handle == handle
  }

  ghost predicate VerdictsOnce(posts: seq<Post>) {
    forall i, j | 0 <= i < j < |posts| && posts[i].Applied? && posts[j].Applied? :: posts[i].handle != posts[j].handle
  }

  /** The exhaustion comments match the latch. */
  ghost predicate CommentsOk(posts: seq<Post>, exhausted: set<Key>) {
    forall k: Key :: PostedOnce(posts, k) && (k in exhausted <==> Posted(posts, k))
  }

  /** Verdicts are those of sessions noted and no longer tracked. */
  ghost predicate VerdictsOk(posts: seq<Post>, tracked: set<string>, noted: set<string>) {
    VerdictsOnce(posts) && tracked <= noted && (forall h | h in tracked :: !HasVerdict(posts, h))
    && forall i | 0 <= i < |posts| && posts[i].Applied? :: posts[i].handle in noted
  }

  ghost predicate Good(s: State, max: nat) {
    OneReviewEach(s) && WithinBudget(s, max) && CommentsOk(s.posts, s.exhausted)
    && VerdictsOk(s.posts, s.tracked.Keys, s.noted)
  }

  lemma PostSnoc(posts: seq<Post>, p: Post, k: Key)
    ensures Posted(posts + [p], k) <==> p == Exhausted(k) || (!Clears(p, k) && Posted(posts, k))
    ensures PostedOnce(posts + [p], k) <==> PostedOnce(posts, k) && (p == Exhausted(k) ==> !Posted(posts, k))
  {
    assert (posts + [p])[..|posts|] == posts;
  }

  lemma CommentsSnoc(posts: seq<Post>, p: Post, before: set<Key>, after: set<Key>)
    requires CommentsOk(posts, before)
    requires match p case Exhausted(k) => k !in before && after == before + {k}
                     case Cleared(scope) => after == set k | k in before && !scope.Covers(k)
                     case Applied(_, _) => after == before
    ensures CommentsOk(posts + [p], after)
  {
    forall k: Key
      ensures PostedOnce(posts + [p], k) && (k in after <==> Posted(posts + [p], k))
    {
      PostSnoc(posts, p, k);
    }
  }

  lemma VerdictSnoc(posts: seq<Post>, p: Post, h: string)
    ensures HasVerdict(posts + [p], h) <==> HasVerdict(posts, h) || (p.Applied? && p.handle == h)
  {
    if HasVerdict(posts, h) {
      var i :| 0 <= i < |posts| && posts[i].Applied? && posts[i].handle == h;
      assert (posts + [p])[i] == posts[i];
    }
    if p.Applied? && p.handle == h { assert (posts + [p])[|posts|] == p; }
  }

  lemma VerdictsSnoc(posts: seq<Post>, p: Post, before: set<string>, after: set<string>, noted: set<string>)
    requires VerdictsOk(posts, before, noted) && after <= before
    requires p.Applied? ==> p.handle in before && p.handle !in after
    ensures VerdictsOk(posts + [p], after, noted)
  {
    forall h | h in after
      ensures !HasVerdict(posts + [p], h)
    {
      VerdictSnoc(posts, p, h);
    }
    forall i | 0 <= i < |posts| && posts[i].Applied?
      ensures p.Applied? ==> posts[i].handle != p.handle
    {
      assert HasVerdict(posts, posts[i].handle);
    }
  }

  lemma ClearIsGood(s: State, max: nat, scope: Scope)
    requires Good(s, max)
    ensures Good(s.Clear(scope), max)
  {
    var next := s.Clear(scope);
    CommentsSnoc(s.posts, Cleared(scope), s.exhausted, next.exhausted);
    VerdictsSnoc(s.posts, Cleared(scope), s.tracked.Keys, next.tracked.Keys, s.noted);
    assert forall other: Key :: next.Attempts(other) <= s.Attempts(other);
  }

  lemma AskedIsGood(s: State, max: nat, k: Key, sha: Option<string>)
    requires Good(s, max)
    ensures Good(s.Asked(k, max, sha), max)
  {
    if s.Spent(k, max) && k !in s.exhausted {
      CommentsSnoc(s.posts, Exhausted(k), s.exhausted, s.exhausted + {k});
      VerdictsSnoc(s.posts, Exhausted(k), s.tracked.Keys, s.tracked.Keys, s.noted);
    }
    assert forall other: Key :: s.Asked(k, max, sha).Attempts(other) == s.Attempts(other);
  }

  lemma AppliedIsGood(s: State, max: nat, handle: string)
    requires Good(s, max) && handle in s.tracked
    ensures Good(s.Dropped(handle).(posts := s.posts + [Applied(handle, s.tracked[handle])]), max)
  {
    var p, after := Applied(handle, s.tracked[handle]), s.Dropped(handle);
    CommentsSnoc(s.posts, p, s.exhausted, s.exhausted);
    VerdictsSnoc(s.posts, p, s.tracked.Keys, after.tracked.Keys, s.noted);
    assert forall other: Key :: after.(posts := s.posts + [p]).Attempts(other) == s.Attempts(other);
  }

  lemma DroppedIsGood(s: State, max: nat, handle: string)
    requires Good(s, max)
    ensures Good(s.Dropped(handle), max)
  {
    assert forall other: Key :: s.Dropped(handle).Attempts(other) == s.Attempts(other);
  }

  lemma NotedIsGood(s: State, max: nat, handle: string, k: Key)
    requires Good(s, max) && handle !in s.noted && !s.InFlight(k.repo) && s.Attempts(k) < max
    ensures Good(s.Noted(handle, k), max)
  {
    var next := s.Noted(handle, k);
    NoteKeepsOneExactlyWhenIdle(s, handle, k);
    NoteKeepsBudgetExactlyWithRoom(s, max, handle, k);
    assert next.tracked.Keys == s.tracked.Keys + {handle};
    if HasVerdict(s.posts, handle) { assert false; }
  }

  lemma NextIsGood(s: State, max: nat, a: Action)
    requires Good(s, max) && Allowed(s, a)
    ensures Good(Next(s, max, a), max)
  {
    match a
    case Review(k, sha, handle) => ReviewIsGood(s, max, k, sha, handle);
    case Complete(handle, known, verdict, closed) =>
      if handle in s.tracked { CompletedIsGood(s, max, handle, known, verdict, closed); }
    case Abort(handle) => DroppedIsGood(s, max, handle);
    case Reset(scope) => ClearIsGood(s, max, scope);
  }

  lemma CompletedIsGood(s: State, max: nat, handle: string, known: bool, verdict: Verdict, closed: bool)
    requires Good(s, max) && handle in s.tracked
    ensures Good(s.Completed(handle, known, verdict, closed), max)
  {
    if known {
      AppliedIsGood(s, max, handle);
      var after := s.Dropped(handle).(posts := s.posts + [Applied(handle, s.tracked[handle])]);
      if verdict == Approved && closed { ClearIsGood(after, max, One(s.tracked[handle])); }
    } else {
      DroppedIsGood(s, max, handle);
    }
  }

  lemma ReviewIsGood(s: State, max: nat, k: Key, sha: Option<string>, handle: Option<string>)
    requires Good(s, max) && (handle.Some? ==> handle.value !in s.noted)
    ensures Good(Next(s, max, Review(k, sha, handle)), max)
  {
    AskedIsGood(s, max, k, sha);
    if s.Grants(k, max, sha) && handle.Some? { NotedIsGood(s.Asked(k, max, sha), max, handle.value, k); }
  }

  /** In every run where each review session follows a grant, a repository has at most one review in
      flight, no epic exceeds its budget, the exhaustion comment is posted once per clearing and
      each session's verdict is applied at most once. */
  lemma {:induction false} EveryRunIsGood(max: nat, actions: seq<Action>)
    requires RunAllowed(max, actions)
    ensures Good(Run(max, actions), max)
  {
    if actions != [] {
      EveryRunIsGood(max, actions[..|actions| - 1]);
      NextIsGood(Run(max, actions[..|actions| - 1]), max, actions[|actions| - 1]);
    }
  }

  /** Some post since the first n cleared k. */
  ghost predicate ClearedSince(posts: seq<Post>, n: nat, k: Key) {
    exists i :: n <= i < |posts| && Clears(posts[i], k)
  }

  /** Every handler only adds posts, and drops or changes a start commit only by clearing its key. */
  lemma StartStep(s: State, max: nat, a: Action, k: Key)
    requires k in s.started
    ensures var next := Next(s, max, a);
            s.posts <= next.posts
            && ((k in next.started && next.started[k] == s.started[k]) || ClearedSince(next.posts, |s.posts|, k))
  {
    var next := Next(s, max, a);
    if k !in next.started { assert Clears(next.posts[|next.posts| - 1], k); }
  }

  /** In every run the first start commit recorded for an epic stays for good unless the epic is
      cleared after it was recorded. m is any earlier point of the run. */
  lemma {:induction false} StartPersists(max: nat, actions: seq<Action>, m: nat, k: Key)
    requires m <= |actions| && k in Run(max, actions[..m]).started
    ensures var s, s' := Run(max, actions[..m]), Run(max, actions);
            s.posts <= s'.posts
            && ((k in s'.started && s'.started[k] == s.started[k]) || ClearedSince(s'.posts, |s.posts|, k))
    decreases |actions|
  {
    if m == |actions| {
      assert actions[..m] == actions;
    } else {
      var before := actions[..|actions| - 1];
      assert before[..m] == actions[..m];
      StartPersists(max, before, m, k);
      var s, s1 := Run(max, actions[..m]), Run(max, before);
      if k in s1.started && s1.started[k] == s.started[k] {
        StartStep(s1, max, actions[|actions| - 1], k);
      } else {
        PostsGrow(s1, max, actions[|actions| - 1]);
      }
    }
  }

  lemma PostsGrow(s: State, max: nat, a: Action)
    ensures s.posts <= Next(s, max, a).posts
  {
  }

  /** Noting a session keeps every epic within its budget exactly when its own has an attempt left. */
  lemma NoteKeepsBudgetExactlyWithRoom(s: State, max: nat, handle: string, k: Key)
    requires WithinBudget(s, max)
    ensures WithinBudget(s.Noted(handle, k), max) <==> s.Attempts(k) < max
  {
    var next := s.Noted(handle, k);
    assert forall other: Key :: next.Attempts(other) == s.Attempts(other) + if other == k then 1 else 0;
  }

  /** Noting a session keeps one review per repository exactly when none is in flight there. A
      reviewer's fallback notes its session while the first is still tracked. */
  lemma NoteKeepsOneExactlyWhenIdle(s: State, handle: string, k: Key)
    requires OneReviewEach(s) && handle !in s.tracked
    ensures OneReviewEach(s.Noted(handle, k)) <==> !s.InFlight(k.repo)
  {
    var next := s.Noted(handle, k);
    if s.InFlight(k.repo) {
      var h :| h in s.tracked && s.tracked[h].repo == k.repo;
      assert next.tracked[h].repo == next.tracked[handle].repo && h != handle;
    }
  }

  /** So after a grant, a session and its fallback are both tracked, and the fallback costs another
      attempt: with a budget of one it is exceeded. */
  lemma FallbackBreaksBoth(k: Key, sha: string, first: string, second: string)
    requires first != second
    ensures var s := Run(1, [Review(k, Some(sha), Some(first))]).Noted(second, k);
            !OneReviewEach(s) && !WithinBudget(s, 1)
  {
    var actions := [Review(k, Some(sha), Some(first))];
    assert actions[..0] == [] && Run(1, []) == START;
    var s := Run(1, actions);
    assert s == Next(START, 1, actions[0]);
    assert s.tracked == map[first := k] && s.Attempts(k) == 1;
    var after := s.Noted(second, k);
    assert after.tracked[first].repo == after.tracked[second].repo;
    assert after.Attempts(k) == 2;
  }

  // ------------------------------------------------------------ the gate

  /** The gate's maps; posts and noted are history. */
  class Gate {
    const maxRetries: nat
    var attempted: map<Key, nat>
    var exhausted: set<Key>
    var tracked: map<string, Key>
    var started: map<Key, string>
    ghost var posts: seq<Post>
    ghost var noted: set<string>

    ghost function View(): State
      reads this
    {
      State(attempted, exhausted, tracked, started, posts, noted)
    }

    constructor (maxRetries: int)
      ensures View() == START && this.maxRetries == if maxRetries <= 0 then DEFAULT_MAX_RETRIES else maxRetries
    {
      this.maxRetries := if maxRetries <= 0 then DEFAULT_MAX_RETRIES else maxRetries;
      attempted, exhausted, tracked, started, posts, noted := map[], {}, map[], map[], [], {};
    }

    method InFlight(repo: string) returns (busy: bool)
      ensures busy == View().InFlight(repo)
    {
      var rest := tracked.Keys;
      while rest != {}
        invariant rest <= tracked.Keys && forall h | h in tracked && h !in rest :: tracked[h].repo != repo
        decreases |rest|
      {
        var h :| h in rest;
        if tracked[h].repo == repo { return true; }
        rest := rest - {h};
      }
      return false;
    }

    /** Records a used-up budget; already tells whether it was recorded before. */
    method Exhaust(k: Key) returns (already: bool)
      modifies this`exhausted
      ensures already == (k in old(exhausted)) && exhausted == old(exhausted) + {k}
    {
      already := k in exhausted;
      exhausted := exhausted + {k};
    }

    method RecordStart(k: Key, sha: string) returns (recorded: bool)
      modifies this`started
      ensures recorded == (k !in old(started))
      ensures started == if recorded then old(started)[k := sha] else old(started)
    {
      if k in started { return false; }
      started := started[k := sha];
      return true;
    }

    /** Whether an epic with closed children may be reviewed now. */
    method DueClosed(repo: string, epic: string, sha: Option<string>) returns (due: bool)
      modifies this`exhausted, this`started, this`posts
      ensures match KeyOf(repo, epic)
              case None => !due && View() == old(View())
              case Some(k) =>
                due == old(View().Grants(k, maxRetries, sha)) && View() == old(View()).Asked(k, maxRetries, sha)
    {
      var key := KeyOf(repo, epic);
      if key.None? { return false; }
      var k := key.value;
      var busy := InFlight(repo);
      if busy { return false; }
      var attempts := if k in attempted then attempted[k] else 0;
      if attempts >= maxRetries {
        var already := Exhaust(k);
        if !already { posts := posts + [Exhausted(k)]; }
        return false;
      }
      if k in started { return true; }
      if sha.None? { return false; }
      var _ := RecordStart(k, sha.value);
      return true;
    }

    /** Tracks a review session and takes one attempt; a handle tracked already changes nothing. */
    method NoteSession(handle: string, repo: string, epic: string)
      modifies this`tracked, this`attempted, this`noted
      ensures var key := KeyOf(repo, epic);
              View() == if handle == "" || key.None? || handle in old(tracked) then old(View())
                        else old(View()).Noted(handle, key.value)
    {
      if handle == "" { return; }
      var key := KeyOf(repo, epic);
      if key.None? || handle in tracked { return; }
      var k := key.value;
      tracked := tracked[handle := k];
      attempted := attempted[k := (if k in attempted then attempted[k] else 0) + 1];
      noted := noted + {handle};
    }

    method Drop(handle: string) returns (k: Option<Key>)
      modifies this`tracked
      ensures k == if handle in old(tracked) then Some(old(tracked)[handle]) else None
      ensures tracked == old(tracked) - {handle}
    {
      if handle !in tracked {
        assert tracked - {handle} == tracked;
        return None;
      }
      k := Some(tracked[handle]);
      tracked := tracked - {handle};
    }

    method Clear(scope: Scope)
      modifies this
      ensures View() == old(View()).Clear(scope)
    {
      attempted := Uncovered(attempted, scope);
      exhausted := set k | k in exhausted && !scope.Covers(k);
      started := Uncovered(started, scope);
      tracked := Unreviewed(tracked, scope);
      posts := posts + [Cleared(scope)];
    }

    /** known: the session's repository is still registered. closed: closing the epic worked. */
    method CompleteReview(handle: string, known: bool, verdict: Verdict, closed: bool)
      modifies this
      ensures View() == old(View()).Completed(handle, known, verdict, closed)
    {
      var k := Drop(handle);
      if k.None? || !known { return; }
      posts := posts + [Applied(handle, k.value)];
      DispatchVerdict(k.value, verdict, closed);
    }

    method DispatchVerdict(k: Key, verdict: Verdict, closed: bool)
      modifies this
      ensures View() == if verdict == Approved && closed then old(View()).Clear(One(k)) else old(View())
    {
      match verdict
      case Approved =>
        if !closed { return; }
        Clear(One(k));
      case _ =>
    }

    /** Forgets a session and leaves its epic open. */
    method AbortReview(handle: string)
      modifies this`tracked
      ensures View() == old(View()).Dropped(handle)
    {
      var _ := Drop(handle);
    }

    /** Asks for a review and, when it is granted, notes the session that was started for it. */
    method Review(repo: string, epic: string, sha: Option<string>, session: Option<string>) returns (due: bool)
      requires session.Some? ==> session.value != "" && session.value !in noted && tracked.Keys <= noted
      modifies this
      ensures match KeyOf(repo, epic)
              case None => View() == old(View())
              case Some(k) => View() == Next(old(View()), maxRetries, Action.Review(k, sha, session))
    {
      due := DueClosed(repo, epic, sha);
      if due && session.Some? { NoteSession(session.value, repo, epic); }
    }
  }
}
