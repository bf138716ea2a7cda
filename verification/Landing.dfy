/** A landing with its provenance: what the commits of a landed range say afterwards. */
module Landing {
  import opened Text
  import opened Git
  import opened Repo
  import opened Replay
  import L = Land
  import S = Stamp
  import P = Provenance

  /** The commit reads back as the stamp, word for word. */
  ghost predicate Carries(c: Commit, stamp: P.StampData) {
    S.Parsed(P.MAGICITE, c.meta.message) == P.StampTrailers(stamp)
  }

  /** Every commit of base..tip does. */
  ghost predicate AllCarry(commits: seq<Commit>, base: nat, tip: nat, stamp: P.StampData) {
    CommitsOk(commits) && base < |commits| && tip < |commits|
    && forall c | 0 <= c < |commits| && Ancestor(commits, c, tip) && !Ancestor(commits, c, base) ::
         Carries(commits[c], stamp)
  }

  /** Whatever the branch adds to a later integration tip carries the stamp too. */
  lemma AddedCommitsCarry(commits: seq<Commit>, base: nat, tip: nat, stamp: P.StampData, integration: nat)
    requires AllCarry(commits, base, tip, stamp) && integration < |commits| && Ancestor(commits, base, integration)
    ensures AllCarry(commits, integration, tip, stamp)
  {
    forall c | 0 <= c < |commits| && Ancestor(commits, c, tip) && !Ancestor(commits, c, integration)
      ensures Carries(commits[c], stamp)
    {
      if Ancestor(commits, c, base) { AncestorTransitive(commits, c, base, integration); }
    }
  }

  /** Every commit of a stamped range parses back as the stamp. */
  lemma StampedReadsBack(commits: seq<Commit>, exclude: nat, tip: nat, base: nat, tip': nat, stamp: P.StampData)
    requires StampedRange(commits, exclude, tip, base, tip', P.MAGICITE, P.StampTrailers(stamp))
    ensures AllCarry(commits, base, tip', stamp)
  {
    var revs, ids := Range(commits, exclude, tip), Range(commits, base, tip');
    forall c | 0 <= c < |commits| && Ancestor(commits, c, tip') && !Ancestor(commits, c, base)
      ensures Carries(commits[c], stamp)
    {
      RangeMember(commits, base, tip', |commits|, c);
      var k :| 0 <= k < |ids| && ids[k] == c;
      P.StampRoundTrip(commits[revs[k]].meta.message, stamp);
    }
  }

  lemma EmptyCarries(commits: seq<Commit>, base: nat, tip: nat, stamp: P.StampData)
    requires CommitsOk(commits) && base < |commits| && tip < |commits| && Range(commits, base, tip) == []
    ensures AllCarry(commits, base, tip, stamp)
  {
    forall c: nat | c < |commits|
      ensures Ancestor(commits, c, tip) ==> Ancestor(commits, c, base)
    {
      RangeMember(commits, base, tip, |commits|, c);
    }
  }

  /** A stamped branch adds only commits that carry the stamp, except that git itself words the
      stamp of a range of one commit. */
  lemma StampedCarries(w: World, s: Seat, l: nat, b: nat, stamp: P.StampData)
    requires Stamped(w, s, l, b, P.MAGICITE, P.StampTrailers(stamp)) && |s.log[l].command.revs| != 1
    ensures AllCarry(w.commits, w.integration, s.tip, stamp)
  {
    var r, base := s.log[l], s.log[b].integration;
    if |r.command.revs| == 0 {
      EmptyCarries(w.commits, r.integration, r.tip, stamp);
      AddedCommitsCarry(w.commits, r.integration, r.tip, stamp, w.integration);
    } else {
      StampedReadsBack(w.commits, r.integration, r.tip, base, s.tip, stamp);
      AddedCommitsCarry(w.commits, base, s.tip, stamp, w.integration);
    }
  }

  /** Command l of this landing listed the branch, and every commit that the fast-forward at its
      end put into integration carries the stamp; of a single listed commit only the message
      changed, and it carries the stamp unless git rewrote it. */
  ghost predicate LandedStamped(before: Seat, w: World, s: Seat, l: nat, stamp: P.StampData) {
    L.Landed(before, w, s) && |before.log| <= l < |s.log| - 2 && s.log[l].command.List?
    && if |s.log[l].command.revs| == 1 then
         SameButMessage(w.commits, s.log[l].tip, s.tip)
         && (s.tip == s.log[l].tip ==> Carries(w.commits[s.tip], stamp))
       else AllCarry(w.commits, L.Last(s.log).integration, s.tip, stamp)
  }

  /** LandBranch with the task's stamp, which takes the name of the repository landed in. */
  method LandBranch(repo: Repository, name: string, seat: string, resolved: bool, work: Meta,
                    stamp: Option<P.StampData>)
    returns (outcome: L.Outcome, ghost l: nat)
    requires repo.Valid() && MetaOk(work)
    modifies repo
    ensures repo.Continues()
    ensures outcome == L.OutcomeLanded ==> seat in old(repo.world).seats && resolved
    ensures outcome == L.OutcomeLanded && stamp.Some? ==>
      LandedStamped(old(repo.world).seats[seat], repo.world, repo.world.seats[seat], l, stamp.value.(repo := name))
  {
    var asked: Option<seq<S.Trailer>> := None;
    if stamp.Some? {
      var trailers := P.Trailers(stamp.value.(repo := name));
      asked := Some(trailers);
    }
    ghost var before := repo.world.seats;
    var err;
    ghost var k, b;
    outcome, err, k, l, b := L.LandBranch(repo, seat, resolved, work, P.MAGICITE, asked);
    if outcome == L.OutcomeLanded && stamp.Some? {
      Carried(before[seat], repo.world, repo.world.seats[seat], l, b, stamp.value.(repo := name));
    }
  }

  lemma Carried(before: Seat, w: World, s: Seat, l: nat, b: nat, stamp: P.StampData)
    requires L.Landed(before, w, s) && |before.log| <= l
    requires Stamped(At(w, L.Last(s.log)), s, l, b, P.MAGICITE, P.StampTrailers(stamp))
    ensures LandedStamped(before, w, s, l, stamp)
  {
    var at := At(w, L.Last(s.log));
    ListedBefore(before, w, s, l);
    if |s.log[l].command.revs| != 1 {
      StampedCarries(at, s, l, b, stamp);
    } else {
      P.StampRoundTrip(w.commits[s.tip].meta.message, stamp);
    }
  }

  /** The last two commands of a landing list nothing. */
  lemma ListedBefore(before: Seat, w: World, s: Seat, l: nat)
    requires L.Landed(before, w, s) && l < |s.log| && s.log[l].command.List?
    ensures l < |s.log| - 2
  {
  }
}
