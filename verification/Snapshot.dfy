/** Snapshots of internal/daemon: a cache with a lifetime and generations, and a coordinator that
    keeps the last good read of every repository. */
module Snapshot {
  import opened Text

  type Repo = string

  datatype Record<T> = Record(repo: Repo, value: T)

  /** One repository's read; None is a failure. */
  datatype Outcome<T> = Outcome(repo: Repo, value: Option<T>)

  datatype State<T> = State(records: seq<Record<T>>, errors: seq<Repo>, generation: nat, current: bool, stale: bool)

  // ------------------------------------------------------------ the cache

  class Cache<T> {
    const ttl: int
    var latest: Option<T>
    var expires: int
    var current: bool
    var version: nat

    constructor (ttl: int)
      ensures this.ttl == ttl && latest == None && version == 0 && !current
    {
      this.ttl := ttl;
      latest, expires, current, version := None, 0, false, 0;
    }

    /** Replaces the latest value and starts its lifetime. */
    method Accept(value: T, now: int) returns (generation: nat)
      modifies this
      ensures latest == Some(value) && current && expires == now + ttl && version == generation == old(version) + 1
    {
      latest, expires, current := Some(value), now + ttl, true;
      version := version + 1;
      return version;
    }

    /** The latest value before its expiry; it expires exactly at the boundary. */
    method Fresh(now: int) returns (value: Option<T>, generation: nat)
      modifies this`current
      ensures value == if old(current) && now < expires then latest else None
      ensures value.Some? ==> generation == version
      ensures current == value.Some?
    {
      if latest.None? || !current || !(now < expires) {
        current := false;
        return None, 0;
      }
      return latest, version;
    }

    method Latest() returns (value: Option<T>, generation: nat)
      ensures value == latest && (value.Some? ==> generation == version)
    {
      if latest.None? { return None, 0; }
      return latest, version;
    }

    /** Marks the value stale; it and its generation stay. */
    method Invalidate()
      modifies this`current
      ensures !current
    {
      current := false;
    }
  }

  // ------------------------------------------------------------ merging

  /** What the outcomes say about a repository: the last one counts. */
  function Found<T>(outcomes: seq<Outcome<T>>, r: Repo): Option<Outcome<T>> {
    if outcomes == [] then None
    else
      var o := outcomes[|outcomes| - 1];
      if o.repo == r then Some(o) else Found(outcomes[..|outcomes| - 1], r)
  }

  /** It is the outcome nothing later about the repository follows. */
  lemma {:induction false} FoundExactly<T>(outcomes: seq<Outcome<T>>, r: Repo)
    ensures Found(outcomes, r).None? <==> forall o | o in outcomes :: o.repo != r
    ensures forall n | 0 <= n < |outcomes| && outcomes[n].repo == r
                       && (forall m | n < m < |outcomes| :: outcomes[m].repo != r) ::
              Found(outcomes, r) == Some(outcomes[n])
  {
    if outcomes != [] {
      var init, last := outcomes[..|outcomes| - 1], outcomes[|outcomes| - 1];
      if last.repo != r {
        FoundExactly(init, r);
        assert outcomes == init + [last];
        assert forall o :: o in outcomes <==> o in init || o == last;
      }
    }
  }

  predicate Succeeds<T>(outcomes: seq<Outcome<T>>, r: Repo) {
    Found(outcomes, r).Some? && Found(outcomes, r).value.value.Some?
  }

  /** The values of the listed repositories that have one, in list order. */
  function InOrder<T>(repos: seq<Repo>, values: map<Repo, T>): seq<Record<T>> {
    if repos == [] then []
    else
      var r := repos[|repos| - 1];
      InOrder(repos[..|repos| - 1], values) + if r in values then [Record(r, values[r])] else []
  }

  /** Every listed repository's most recent good read. */
  function Updated<T>(repos: seq<Repo>, outcomes: seq<Outcome<T>>, values: map<Repo, T>): map<Repo, T> {
    map r | r in repos && (Succeeds(outcomes, r) || r in values) ::
      if Succeeds(outcomes, r) then Found(outcomes, r).value.value.value else values[r]
  }

  function Successes<T>(repos: seq<Repo>, outcomes: seq<Outcome<T>>): nat {
    if repos == [] then 0
    else Successes(repos[..|repos| - 1], outcomes) + if Succeeds(outcomes, repos[|repos| - 1]) then 1 else 0
  }

  /** The listed repositories whose read failed, in list order. */
  function Failures<T>(repos: seq<Repo>, outcomes: seq<Outcome<T>>): seq<Repo> {
    if repos == [] then []
    else
      var r := repos[|repos| - 1];
      Failures(repos[..|repos| - 1], outcomes) + if Found(outcomes, r).Some? && !Succeeds(outcomes, r) then [r] else []
  }

  /** Two repositories stand in this order somewhere in the list. */
  ghost predicate Before(repos: seq<Repo>, a: Repo, b: Repo) {
    exists i, j :: 0 <= i < j < |repos| && repos[i] == a && repos[j] == b
  }

  lemma BeforeSnoc(init: seq<Repo>, last: Repo, a: Repo, b: Repo)
    ensures Before(init, a, b) ==> Before(init + [last], a, b)
    ensures a in init && b == last ==> Before(init + [last], a, b)
  {
    var all := init + [last];
    if i, j :| 0 <= i < j < |init| && init[i] == a && init[j] == b { assert all[i] == a && all[j] == b; }
    if i :| 0 <= i < |init| && init[i] == a { assert all[i] == a && all[|init|] == last; }
  }

  lemma InInit(repos: seq<Repo>, r: Repo)
    requires repos != []
    ensures r in repos <==> r in repos[..|repos| - 1] || r == repos[|repos| - 1]
  {
    assert repos == repos[..|repos| - 1] + [repos[|repos| - 1]];
  }

  /** The records: one for every listed repository that has a value, in list order, and no others. */
  lemma {:induction false} RecordsExactly<T>(repos: seq<Repo>, values: map<Repo, T>, c: Record<T>)
    ensures c in InOrder(repos, values) <==> c.repo in repos && c.repo in values && c.value == values[c.repo]
  {
    if repos != [] {
      RecordsExactly(repos[..|repos| - 1], values, c);
      InInit(repos, c.repo);
      assert c == Record(c.repo, c.value);
    }
  }

  lemma {:induction false} RecordsInOrder<T>(repos: seq<Repo>, values: map<Repo, T>)
    ensures var records := InOrder(repos, values);
            forall i, j | 0 <= i < j < |records| :: Before(repos, records[i].repo, records[j].repo)
  {
    if repos != [] {
      var init, last, records := repos[..|repos| - 1], repos[|repos| - 1], InOrder(repos, values);
      var earlier := InOrder(init, values);
      RecordsInOrder(init, values);
      assert repos == init + [last];
      forall i, j | 0 <= i < j < |records|
        ensures Before(repos, records[i].repo, records[j].repo)
      {
        assert records[i] == earlier[i] && earlier[i] in earlier;
        RecordsExactly(init, values, earlier[i]);
        BeforeSnoc(init, last, records[i].repo, records[j].repo);
        if j < |earlier| { assert Before(init, earlier[i].repo, earlier[j].repo); }
      }
    }
  }

  /** The failures: every listed repository whose last outcome is a failure, in list order. */
  lemma {:induction false} FailuresExactly<T>(repos: seq<Repo>, outcomes: seq<Outcome<T>>, r: Repo)
    ensures r in Failures(repos, outcomes) <==>
              r in repos && Found(outcomes, r).Some? && Found(outcomes, r).value.value.None?
  {
    if repos != [] {
      FailuresExactly(repos[..|repos| - 1], outcomes, r);
      InInit(repos, r);
    }
  }

  lemma {:induction false} FailuresInOrder<T>(repos: seq<Repo>, outcomes: seq<Outcome<T>>)
    ensures var failed := Failures(repos, outcomes);
            forall i, j | 0 <= i < j < |failed| :: Before(repos, failed[i], failed[j])
  {
    if repos != [] {
      var init, last, failed := repos[..|repos| - 1], repos[|repos| - 1], Failures(repos, outcomes);
      var earlier := Failures(init, outcomes);
      FailuresInOrder(init, outcomes);
      assert repos == init + [last];
      forall i, j | 0 <= i < j < |failed|
        ensures Before(repos, failed[i], failed[j])
      {
        assert failed[i] == earlier[i] && earlier[i] in earlier;
        FailuresExactly(init, outcomes, earlier[i]);
        BeforeSnoc(init, last, failed[i], failed[j]);
        if j < |earlier| { assert Before(init, earlier[i], earlier[j]); }
      }
    }
  }

  lemma {:induction false} NoSuccess<T>(repos: seq<Repo>, outcomes: seq<Outcome<T>>)
    ensures Successes(repos, outcomes) == 0 <==> forall r | r in repos :: !Succeeds(outcomes, r)
  {
    if repos != [] {
      NoSuccess(repos[..|repos| - 1], outcomes);
      assert repos == repos[..|repos| - 1] + [repos[|repos| - 1]];
    }
  }

  method ByRepo<T>(outcomes: seq<Outcome<T>>) returns (found: map<Repo, Outcome<T>>)
    ensures forall r :: if r in found then Found(outcomes, r) == Some(found[r]) else Found(outcomes, r) == None
  {
    found := map[];
    for n := 0 to |outcomes|
      invariant forall r ::
        if r in found then Found(outcomes[..n], r) == Some(found[r]) else Found(outcomes[..n], r) == None
    {
      assert outcomes[..n + 1][..n] == outcomes[..n];
      found := found[outcomes[n].repo := outcomes[n]];
    }
    assert outcomes[..|outcomes|] == outcomes;
  }

  /** New values where the read succeeded, retained ones where it did not. */
  method Merge<T>(repos: seq<Repo>, outcomes: seq<Outcome<T>>, latest: map<Repo, T>)
    returns (records: seq<Record<T>>, errors: seq<Repo>, successes: nat)
    ensures records == InOrder(repos, Updated(repos, outcomes, latest))
    ensures successes == Successes(repos, outcomes)
    ensures errors == Failures(repos, outcomes)
  {
    var found := ByRepo(outcomes);
    records, errors, successes := [], [], 0;
    ghost var values := Updated(repos, outcomes, latest);
    for n := 0 to |repos|
      invariant records == InOrder(repos[..n], values) && successes == Successes(repos[..n], outcomes)
      invariant errors == Failures(repos[..n], outcomes)
    {
      var r := repos[n];
      assert repos[..n + 1] == repos[..n] + [r] && repos[..n + 1][..n] == repos[..n];
      assert errors + [] == errors;
      if r in found && found[r].value.Some? {
        records := records + [Record(r, found[r].value.value)];
        successes := successes + 1;
        continue;
      }
      if r in found { errors := errors + [r]; }
      if r in latest { records := records + [Record(r, latest[r])]; } else { assert records + [] == records; }
    }
    assert repos[..|repos|] == repos;
  }

  function ByRecord<T>(records: seq<Record<T>>): map<Repo, T> {
    if records == [] then map[]
    else ByRecord(records[..|records| - 1])[records[|records| - 1].repo := records[|records| - 1].value]
  }

  method LatestByRepo<T>(records: seq<Record<T>>) returns (latest: map<Repo, T>)
    ensures latest == ByRecord(records)
  {
    latest := map[];
    for n := 0 to |records|
      invariant latest == ByRecord(records[..n])
    {
      assert records[..n + 1][..n] == records[..n];
      latest := latest[records[n].repo := records[n].value];
    }
    assert records[..|records|] == records;
  }

  /** Reading an ordered list back gives the values it was made from. */
  lemma {:induction false} ByRecordInOrder<T>(repos: seq<Repo>, values: map<Repo, T>)
    ensures ByRecord(InOrder(repos, values)) == map r | r in repos && r in values :: values[r]
  {
    if repos != [] {
      var init, r := repos[..|repos| - 1], repos[|repos| - 1];
      ByRecordInOrder(init, values);
      var records := InOrder(init, values);
      if r in values { ByRecordSnoc(records, Record(r, values[r])); }
      ChosenSnoc(init, r, values);
      assert records + [] == records;
      assert repos == init + [r];
    }
  }

  lemma ByRecordSnoc<T>(records: seq<Record<T>>, last: Record<T>)
    ensures ByRecord(records + [last]) == ByRecord(records)[last.repo := last.value]
  {
    assert (records + [last])[..|records|] == records;
  }

  lemma ChosenSnoc<T>(init: seq<Repo>, last: Repo, values: map<Repo, T>)
    ensures var before := map r | r in init && r in values :: values[r];
            (map r | r in init + [last] && r in values :: values[r])
            == if last in values then before[last := values[last]] else before
  {
  }

  predicate Complete<T>(repos: seq<Repo>, values: map<Repo, T>) {
    forall i | 0 <= i < |repos| :: repos[i] in values
  }

  method IsComplete<T>(repos: seq<Repo>, values: map<Repo, T>) returns (complete: bool)
    ensures complete == Complete(repos, values)
  {
    for n := 0 to |repos|
      invariant forall i | 0 <= i < n :: repos[i] in values
    {
      if repos[n] !in values { return false; }
    }
    return true;
  }

  method RecordsFor<T>(repos: seq<Repo>, values: map<Repo, T>) returns (records: seq<Record<T>>)
    ensures records == InOrder(repos, values)
  {
    records := [];
    for n := 0 to |repos|
      invariant records == InOrder(repos[..n], values)
    {
      assert repos[..n + 1][..n] == repos[..n];
      if repos[n] in values {
        records := records + [Record(repos[n], values[repos[n]])];
      } else {
        assert records + [] == records;
      }
    }
    assert repos[..|repos|] == repos;
  }

  // ------------------------------------------------------------ whole runs

  /** The values after a history of refreshes. */
  function GoodAfter<T>(repos: seq<Repo>, history: seq<seq<Outcome<T>>>): map<Repo, T> {
    if history == [] then map[]
    else Updated(repos, history[|history| - 1], GoodAfter(repos, history[..|history| - 1]))
  }

  /** How many refreshes had at least one success. */
  function Accepted<T>(repos: seq<Repo>, history: seq<seq<Outcome<T>>>): nat {
    if history == [] then 0
    else
      Accepted(repos, history[..|history| - 1]) + if Successes(repos, history[|history| - 1]) > 0 then 1 else 0
  }

  lemma HistorySnoc<T>(repos: seq<Repo>, history: seq<seq<Outcome<T>>>, outcomes: seq<Outcome<T>>)
    ensures GoodAfter(repos, history + [outcomes]) == Updated(repos, outcomes, GoodAfter(repos, history))
    ensures Accepted(repos, history + [outcomes])
            == Accepted(repos, history) + if Successes(repos, outcomes) > 0 then 1 else 0
  {
    assert (history + [outcomes])[..|history|] == history;
  }

  lemma {:induction false} GoodAfterListed<T>(repos: seq<Repo>, history: seq<seq<Outcome<T>>>)
    ensures forall r :: r in GoodAfter(repos, history) ==> r in repos
    ensures Accepted(repos, history) == 0 ==> GoodAfter(repos, history) == map[]
  {
    if history != [] {
      GoodAfterListed(repos, history[..|history| - 1]);
      NoSuccess(repos, history[|history| - 1]);
    }
  }

  /** A repository has a value exactly when some refresh read it, and the value is that of the
      last refresh that did. */
  lemma {:induction false} MostRecentGoodRead<T>(repos: seq<Repo>, history: seq<seq<Outcome<T>>>, r: Repo)
    requires r in repos
    ensures r in GoodAfter(repos, history) <==> exists i :: 0 <= i < |history| && Succeeds(history[i], r)
    ensures forall i | 0 <= i < |history| && Succeeds(history[i], r)
                       && (forall j | i < j < |history| :: !Succeeds(history[j], r)) ::
              r in GoodAfter(repos, history) && GoodAfter(repos, history)[r] == Found(history[i], r).value.value.value
  {
    if history != [] {
      var init, last := history[..|history| - 1], |history| - 1;
      MostRecentGoodRead(repos, init, r);
      assert forall i | 0 <= i < |init| :: init[i] == history[i];
      assert Succeeds(history[last], r) || !Succeeds(history[last], r);
    }
  }

  // ------------------------------------------------------------ the coordinator

  /** Coordinates reads of one fixed list of repositories. history is the outcomes of every
      refresh. */
  class Coordinator<T> {
    const cache: Cache<State<T>>
    const repos: seq<Repo>
    ghost var history: seq<seq<Outcome<T>>>

    ghost function Good(): map<Repo, T>
      reads this
    {
      GoodAfter(repos, history)
    }

    ghost predicate Valid()
      reads this, cache
    {
      cache.version == Accepted(repos, history)
      && match cache.latest
         case None => Accepted(repos, history) == 0
         case Some(state) => Accepted(repos, history) > 0 && state.records == InOrder(repos, Good())
    }

    /** The state holds every good value in list order, under the current generation when it is
        one that was accepted. */
    ghost predicate Shows(state: State<T>)
      reads this
    {
      state.records == InOrder(repos, Good())
      && (state.current || state.stale ==> state.generation == Accepted(repos, history))
    }

    constructor (ttl: int, repos: seq<Repo>)
      ensures Valid() && this.repos == repos && history == [] && fresh(cache)
    {
      this.cache := new Cache(ttl);
      this.repos := repos;
      this.history := [];
    }

    /** The answer to a refresh: fresh after any success; after none, the retained state as stale
        when there is one and it is complete. */
    ghost predicate Answers(state: State<T>, outcomes: seq<Outcome<T>>, hadPrevious: bool)
      reads this, cache
    {
      Shows(state) && state.errors == Failures(repos, outcomes)
      && (state.current <==> Successes(repos, outcomes) > 0)
      && (state.stale <==> !state.current && hadPrevious && Complete(repos, Good()))
      && (cache.current <==> state.current)
    }

    /** Returns cached state while it is fresh, otherwise refreshes. outcomes is None when the
        refresh itself failed; now and later are the clock at the two moments it is read. */
    method Snapshot(outcomes: Option<seq<Outcome<T>>>, now: int, later: int) returns (state: Option<State<T>>)
      requires Valid()
      modifies this, cache
      ensures Valid()
      ensures var hit := old(cache.current) && now < old(cache.expires) && old(cache.latest).Some?;
              history == if hit || outcomes.None? then old(history) else old(history) + [outcomes.value]
      ensures var hit := old(cache.current) && now < old(cache.expires) && old(cache.latest).Some?;
              if hit then state.Some? && state.value.current && !state.value.stale && Shows(state.value)
              else if outcomes.None? then state.None?
              else state.Some? && Answers(state.value, outcomes.value, old(cache.latest).Some?)
    {
      var cached, generation := cache.Fresh(now);
      if cached.Some? {
        return Some(cached.value.(generation := generation, current := true, stale := false));
      }
      if outcomes.None? { return None; }
      var refreshed := Refreshed(outcomes.value, later);
      return Some(refreshed);
    }

    method Refreshed(outcomes: seq<Outcome<T>>, later: int) returns (state: State<T>)
      requires Valid() && !cache.current
      modifies this, cache
      ensures Valid() && history == old(history) + [outcomes]
      ensures Answers(state, outcomes, old(cache.latest).Some?)
    {
      var previous, generation := cache.Latest();
      var latest: map<Repo, T> := map[];
      if previous.Some? { latest := LatestByRepo(previous.value.records); }
      ByRecordInOrder(repos, Good());
      GoodAfterListed(repos, history);
      assert latest == Good();
      var records, errors, successes := Merge(repos, outcomes, latest);
      NoSuccess(repos, outcomes);
      HistorySnoc(repos, history, outcomes);
      history := history + [outcomes];
      if successes > 0 {
        generation := cache.Accept(State(records, errors, 0, true, false), later);
        var now, _ := cache.Latest();
        return now.value.(generation := generation, current := true, stale := false);
      }
      assert Good() == latest;
      var complete := IsComplete(repos, latest);
      if previous.Some? && complete {
        records := RecordsFor(repos, latest);
        cache.Invalidate();
        return State(records, errors, generation, false, true);
      }
      return State(records, errors, 0, false, false);
    }
  }
}
