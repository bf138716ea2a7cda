/** The tail over the bus: what the consumer reports as missing is what the bus did not queue. */
module Delivery {
  import opened Client
  import opened Tiling
  import T = Tail
  import B = Bus

  function Sequences(events: seq<B.Event>): (sequences: seq<nat>)
    ensures |sequences| == |events|
  {
    if events == [] then [] else Sequences(events[..|events| - 1]) + [events[|events| - 1].sequence]
  }

  lemma {:induction false} AscendingSnoc(after: nat, sequences: seq<nat>, n: nat)
    requires Ascending(after, sequences)
    requires n > if sequences == [] then after else sequences[|sequences| - 1]
    ensures Ascending(after, sequences + [n])
    decreases |sequences|
  {
    if sequences != [] {
      AscendingSnoc(sequences[0], sequences[1..], n);
      assert (sequences + [n])[1..] == sequences[1..] + [n];
    }
  }

  lemma {:induction false} AscendingBounds(after: nat, sequences: seq<nat>, i: nat)
    requires Ascending(after, sequences) && i < |sequences|
    ensures after < sequences[i] <= sequences[|sequences| - 1]
    decreases |sequences|
  {
    if i > 0 {
      AscendingBounds(sequences[0], sequences[1..], i - 1);
    } else if |sequences| > 1 {
      AscendingBounds(sequences[0], sequences[1..], |sequences| - 2);
    }
  }

  lemma {:induction false} SequencesAt(events: seq<B.Event>)
    ensures forall i | 0 <= i < |events| :: Sequences(events)[i] == events[i].sequence
  {
    if events != [] { SequencesAt(events[..|events| - 1]); }
  }

  ghost predicate NumberedFrom(events: seq<B.Event>, first: nat) {
    forall i | 0 <= i < |events| :: events[i].sequence == first + i + 1
  }

  /** The queued events carry increasing sequences above the start of what is covered. */
  lemma {:induction false} SelectAscends(events: seq<B.Event>, first: nat, kept: seq<bool>)
    requires |events| == |kept| && NumberedFrom(events, first)
    ensures var sent := Sequences(B.Select(events, kept, true));
            Ascending(first, sent) && (sent != [] ==> sent[|sent| - 1] <= first + |kept|)
  {
    if kept != [] {
      var n := |kept| - 1;
      SelectAscends(events[..n], first, kept[..n]);
      var init := B.Select(events[..n], kept[..n], true);
      if kept[n] {
        AscendingSnoc(first, Sequences(init), first + n + 1);
        assert (init + [events[n]])[..|init|] == init;
      } else {
        assert init + [] == init;
      }
    }
  }

  lemma {:induction false} AscendingPrefix(after: nat, sequences: seq<nat>, m: nat)
    requires Ascending(after, sequences) && m <= |sequences|
    ensures Ascending(after, sequences[..m])
    decreases |sequences|
  {
    if m > 0 {
      AscendingPrefix(sequences[0], sequences[1..], m - 1);
      assert sequences[..m][1..] == sequences[1..][..m - 1];
    }
  }

  lemma AscendingWeaken(lower: nat, after: nat, sequences: seq<nat>)
    requires lower <= after && Ascending(after, sequences)
    ensures Ascending(lower, sequences)
  {
  }

  lemma {:induction false} PositionIsLast(v: T.View, sequences: seq<nat>)
    requires !v.live && Ascending(v.position, sequences)
    ensures T.SeenAll(v, sequences).position == if sequences == [] then v.position else sequences[|sequences| - 1]
    decreases |sequences|
  {
    if sequences != [] { PositionIsLast(T.Seen(v, sequences[0]), sequences[1..]); }
  }

  /** The sequences of the events the bus queued for a subscription. */
  ghost function Queued(log: seq<B.Event>, s: B.Stream): seq<nat>
    requires s.Sound(log)
  {
    Sequences(s.account.Sent(log))
  }

  /** The reports of a tail that received the first m queued events of its subscription. */
  ghost function Reports(log: seq<B.Event>, s: B.Stream, m: nat): T.View
    requires s.Sound(log) && m <= |Queued(log, s)|
  {
    T.SeenAll(T.View(s.since, false, []), Delivered(Frames(Queued(log, s)[..m]), 0))
  }

  ghost predicate Reported(lines: seq<Line>, n: nat) {
    exists k :: 0 <= k < |lines| && lines[k].Missed? && lines[k].Covers(n)
  }

  lemma QueuedAscends(log: seq<B.Event>, s: B.Stream)
    requires B.Numbered(log) && s.Sound(log)
    ensures Ascending(s.account.first, Queued(log, s))
    ensures Queued(log, s) != [] ==> Queued(log, s)[|Queued(log, s)| - 1] <= s.account.Through()
  {
    var a := s.account;
    SliceNumbered(log, a.first, a.Through());
    SelectAscends(log[a.first..a.Through()], a.first, a.kept);
  }

  lemma SliceNumbered(log: seq<B.Event>, from: nat, end: nat)
    requires B.Numbered(log) && from <= end <= |log|
    ensures NumberedFrom(log[from..end], from)
  {
    forall i | 0 <= i < end - from
      ensures log[from..end][i].sequence == from + i + 1
    {
      assert log[from..end][i] == log[from + i];
    }
  }

  lemma SelectedIsLog(log: seq<B.Event>, a: B.Account, e: B.Event)
    requires B.Numbered(log) && a.Through() <= |log| && e in a.Sent(log)
    ensures 0 < e.sequence <= |log| && log[e.sequence - 1] == e
  {
    var events := log[a.first..a.Through()];
    B.SelectMember(events, a.kept, true, e);
    var j :| 0 <= j < |events| && events[j] == e;
    assert log[a.first + j] == e;
  }

  lemma QueuedMember(log: seq<B.Event>, s: B.Stream, n: nat)
    requires B.Numbered(log) && s.Sound(log) && 0 < n <= |log|
    ensures n in Queued(log, s) <==> log[n - 1] in s.account.Sent(log)
  {
    SequencesMember(log, s.account.Sent(log), n);
    if n in Queued(log, s) {
      var e := EventOf(s.account.Sent(log), n);
      SelectedIsLog(log, s.account, e);
    }
  }

  lemma EventOf(events: seq<B.Event>, n: nat) returns (e: B.Event)
    requires n in Sequences(events)
    ensures e in events && e.sequence == n
  {
    SequencesAt(events);
    var i :| 0 <= i < |events| && Sequences(events)[i] == n;
    e := events[i];
  }

  lemma SequencesMember(log: seq<B.Event>, events: seq<B.Event>, n: nat)
    requires B.Numbered(log) && 0 < n <= |log|
    ensures log[n - 1] in events ==> n in Sequences(events)
  {
    SequencesAt(events);
    if log[n - 1] in events {
      var i :| 0 <= i < |events| && events[i] == log[n - 1];
      assert Sequences(events)[i] == n;
    }
  }

  /** What lies at or below the m-th of increasing sequences is among the first m. */
  lemma {:induction false} InPrefix(after: nat, sequences: seq<nat>, m: nat, n: nat)
    requires Ascending(after, sequences) && 0 < m <= |sequences| && n <= sequences[m - 1]
    ensures n in sequences[..m] <==> n in sequences
    decreases |sequences|
  {
    if n in sequences {
      var i :| 0 <= i < |sequences| && sequences[i] == n;
      if i < m {
        assert sequences[..m][i] == n;
      } else {
        AscendingSuffix(after, sequences, m - 1);
        AscendingBounds(sequences[m - 1], sequences[m..], i - m);
      }
    }
  }

  lemma {:induction false} AscendingSuffix(after: nat, sequences: seq<nat>, i: nat)
    requires Ascending(after, sequences) && i < |sequences|
    ensures Ascending(sequences[i], sequences[i + 1..])
    decreases |sequences|
  {
    if i > 0 {
      AscendingSuffix(sequences[0], sequences[1..], i - 1);
      assert sequences[1..][i..] == sequences[i + 1..];
    }
  }

  lemma AscendingPair(after: nat, sequences: seq<nat>, i: nat, j: nat)
    requires Ascending(after, sequences) && i < j < |sequences|
    ensures sequences[i] < sequences[j]
  {
    AscendingSuffix(after, sequences, i);
    AscendingBounds(sequences[i], sequences[i + 1..], j - i - 1);
  }

  /** A tail passes over the leading events at or below its position. */
  lemma {:induction false} SeenSkips(v: T.View, after: nat, sequences: seq<nat>) returns (d: nat)
    requires !v.live && Ascending(after, sequences)
    ensures d <= |sequences| && forall i | 0 <= i < d :: sequences[i] <= v.position
    ensures T.SeenAll(v, sequences) == T.SeenAll(v, sequences[d..]) && Ascending(v.position, sequences[d..])
    decreases |sequences|
  {
    d := 0;
    if sequences != [] {
      if sequences[0] <= v.position {
        var rest := SeenSkips(v, sequences[0], sequences[1..]);
        d := rest + 1;
        SkipFirst(v, sequences, rest);
        assert forall i | 0 < i < d :: sequences[i] == sequences[1..][i - 1];
      } else {
        assert sequences[d..] == sequences;
      }
    }
  }

  lemma SkipFirst(v: T.View, sequences: seq<nat>, rest: nat)
    requires !v.live && rest < |sequences| && sequences[0] <= v.position
    ensures T.SeenAll(v, sequences) == T.SeenAll(v, sequences[1..])
    ensures sequences[rest + 1..] == sequences[1..][rest..]
  {
  }

  lemma DeliveredQueued(log: seq<B.Event>, s: B.Stream, m: nat)
    requires B.Numbered(log) && s.Sound(log) && m <= |Queued(log, s)|
    ensures Ascending(s.account.first, Queued(log, s)[..m])
    ensures Delivered(Frames(Queued(log, s)[..m]), 0) == Queued(log, s)[..m]
  {
    var received := Queued(log, s)[..m];
    QueuedAscends(log, s);
    AscendingPrefix(s.account.first, Queued(log, s), m);
    AscendingWeaken(0, s.account.first, received);
    IncreasingDelivered(received, 0);
  }

  /** What a tail received, from the first event above the position it asked for on. */
  lemma Received(log: seq<B.Event>, s: B.Stream, m: nat) returns (d: nat)
    requires B.Numbered(log) && s.Sound(log) && m <= |Queued(log, s)|
    ensures d <= m && forall i | 0 <= i < d :: Queued(log, s)[i] <= s.since
    ensures var rest := Queued(log, s)[..m][d..];
            Ascending(s.since, rest) && Reports(log, s, m) == T.SeenAll(T.View(s.since, false, []), rest)
            && Reports(log, s, m).position == if d == m then s.since else Queued(log, s)[m - 1]
  {
    var received := Queued(log, s)[..m];
    DeliveredQueued(log, s, m);
    d := SeenSkips(T.View(s.since, false, []), s.account.first, received);
    PositionIsLast(T.View(s.since, false, []), received[d..]);
    LastOfRest(Queued(log, s), m, d);
  }

  lemma LastOfRest(queued: seq<nat>, m: nat, d: nat)
    requires d <= m <= |queued|
    ensures var rest := queued[..m][d..]; |rest| == m - d && (d < m ==> rest[|rest| - 1] == queued[m - 1])
    ensures forall i | 0 <= i < d :: queued[..m][i] == queued[i]
  {
  }

  /** End to end: from the position it asked for up to its resume position, a tail renders exactly
      the events the bus queued for it and reports as missing exactly those the bus had already
      dropped from its ring or could not queue. */
  lemma GapsAreLosses(log: seq<B.Event>, s: B.Stream, m: nat, n: nat)
    requires B.Numbered(log) && s.Sound(log) && m <= |Queued(log, s)|
    requires s.since < n <= Reports(log, s, m).position
    ensures n <= s.account.Through()
    ensures Rendered(n) in Reports(log, s, m).lines <==> log[n - 1] in s.account.Sent(log)
    ensures Reported(Reports(log, s, m).lines, n) <==> B.Missed(s, n) || log[n - 1] in s.account.Lost(log)
  {
    RenderedIsQueued(log, s, m, n);
    QueuedMember(log, s, n);
    B.Partition(log, s, n);
  }

  lemma RenderedIsQueued(log: seq<B.Event>, s: B.Stream, m: nat, n: nat)
    requires B.Numbered(log) && s.Sound(log) && m <= |Queued(log, s)|
    requires s.since < n <= Reports(log, s, m).position
    ensures 0 < n <= s.account.Through()
    ensures Rendered(n) in Reports(log, s, m).lines <==> n in Queued(log, s)
    ensures Reported(Reports(log, s, m).lines, n) <==> n !in Queued(log, s)
  {
    var end := Reports(log, s, m);
    var rest := Ahead(log, s, m, n);
    T.RendersAll(T.View(s.since, false, []), rest, n);
    T.ReportsTile(s.since, rest);
    OneReport(end.lines, s.since, end.position, n);
  }

  /** What a tail received above its position, and whether n is in it. */
  lemma Ahead(log: seq<B.Event>, s: B.Stream, m: nat, n: nat) returns (rest: seq<nat>)
    requires B.Numbered(log) && s.Sound(log) && m <= |Queued(log, s)|
    requires s.since < n <= Reports(log, s, m).position
    ensures 0 < n <= s.account.Through() && (n in rest <==> n in Queued(log, s))
    ensures Ascending(s.since, rest) && Reports(log, s, m) == T.SeenAll(T.View(s.since, false, []), rest)
  {
    var queued := Queued(log, s);
    var d := Received(log, s, m);
    rest := queued[..m][d..];
    QueuedAscends(log, s);
    AscendingBounds(s.account.first, queued, m - 1);
    InPrefix(s.account.first, queued, m, n);
    AfterSkipped(queued[..m], d, s.since, n);
  }

  lemma AfterSkipped(received: seq<nat>, d: nat, since: nat, n: nat)
    requires d <= |received| && (forall i | 0 <= i < d :: received[i] <= since) && n > since
    ensures n in received[d..] <==> n in received
  {
    assert received == received[..d] + received[d..];
  }

  /** The other side: at or below the position it asked for a tail says nothing. After a restart
      of the daemon that position can lie above everything published, and then all that the bus
      queues up to it is neither rendered nor reported. */
  lemma NothingUpToPosition(log: seq<B.Event>, s: B.Stream, m: nat, n: nat)
    requires B.Numbered(log) && s.Sound(log) && m <= |Queued(log, s)|
    requires n <= s.since || n > Reports(log, s, m).position
    ensures Rendered(n) !in Reports(log, s, m).lines && !Reported(Reports(log, s, m).lines, n)
  {
    var d := Received(log, s, m);
    var lines := Reports(log, s, m).lines;
    T.ReportsTile(s.since, Queued(log, s)[..m][d..]);
    forall k | 0 <= k < |lines|
      ensures !lines[k].Covers(n) && lines[k] != Rendered(n)
    {
      TilesAscend(lines, s.since, Reports(log, s, m).position, k);
    }
  }

  /** For instance a tail that resumes after 5 on a new bus: its first event is queued and taken, and
      the tail shows nothing. */
  lemma ResumedAboveExample(e: B.Event)
    requires e.sequence == 1
    ensures var s := B.Stream([], 1, true, 0, false, 0, false, 5, 0, B.Account(0, [true], 1));
            B.Numbered([e]) && s.Sound([e]) && Queued([e], s) == [1] && Reports([e], s, 1).lines == []
  {
    var log, s := [e], B.Stream([], 1, true, 0, false, 0, false, 5, 0, B.Account(0, [true], 1));
    assert log[0..1] == log && log[..0] == [] && [true][..0] == [];
    assert B.Select([], [], true) == [] && B.Select([], [], false) == [];
    assert s.account.Sent(log) == [] + [e] == [e] && s.account.Lost(log) == [];
    assert Queued(log, s) == [] + [1] == [1];
    assert [1][..1] == [1] && Frames([1])[1..] == [];
    assert Delivered(Frames([1]), 0) == [1];
  }

  // ------------------------------------------------------------ over reconnects

  /** One connection of a tail: its subscription and how many of the queued events it received. */
  datatype Connection = Connection(stream: B.Stream, received: nat) {
    ghost predicate Sound(log: seq<B.Event>) {
      stream.Sound(log) && received <= |Queued(log, stream)|
    }

    ghost function Arrived(log: seq<B.Event>): seq<nat> {
      if Sound(log) then Queued(log, stream)[..received] else []
    }

    /** It delivered event n, which lay above the position it had asked for. */
    ghost predicate Brought(log: seq<B.Event>, n: nat) {
      stream.since < n && n in Arrived(log)
    }
  }

  /** What the tail has reported after these connections. */
  ghost function Shown(log: seq<B.Event>, since: nat, cs: seq<Connection>): T.View {
    if cs == [] then T.View(since, false, [])
    else T.SeenAll(Shown(log, since, cs[..|cs| - 1]), Delivered(Frames(cs[|cs| - 1].Arrived(log)), 0))
  }

  /** Every connection subscribes to the bus that published log and asks for what follows the
      position reached before it. */
  ghost predicate Resumes(log: seq<B.Event>, since: nat, cs: seq<Connection>) {
    cs == []
    || var before, c := cs[..|cs| - 1], cs[|cs| - 1];
       Resumes(log, since, before) && c.Sound(log) && c.stream.since == Shown(log, since, before).position
  }

  /** One of the connections brought event n. */
  ghost predicate SomeBrought(log: seq<B.Event>, cs: seq<Connection>, n: nat) {
    cs != [] && (SomeBrought(log, cs[..|cs| - 1], n) || cs[|cs| - 1].Brought(log, n))
  }

  /** Of increasing events exactly those above the position are rendered. */
  lemma RendersAbove(v: T.View, after: nat, sequences: seq<nat>, n: nat)
    requires !v.live && Ascending(after, sequences)
    ensures Rendered(n) in T.SeenAll(v, sequences).lines
            <==> Rendered(n) in v.lines || (n in sequences && v.position < n)
  {
    var d := SeenSkips(v, after, sequences);
    T.RendersAll(v, sequences[d..], n);
    if n > v.position {
      AfterSkipped(sequences, d, v.position, n);
    } else if n in sequences[d..] {
      var i :| 0 <= i < |sequences[d..]| && sequences[d..][i] == n;
      AscendingBounds(v.position, sequences[d..], i);
    }
  }

  lemma {:induction false} ShownTiles(log: seq<B.Event>, since: nat, cs: seq<Connection>, n: nat)
    requires B.Numbered(log) && Resumes(log, since, cs)
    ensures var v := Shown(log, since, cs);
            !v.live && Tiles(v.lines, since, v.position)
            && (Rendered(n) in v.lines <==> SomeBrought(log, cs, n))
  {
    if cs != [] {
      var before, c := cs[..|cs| - 1], cs[|cs| - 1];
      ShownTiles(log, since, before, n);
      DeliveredQueued(log, c.stream, c.received);
      RendersAbove(Shown(log, since, before), c.stream.account.first, c.Arrived(log), n);
      T.SeenAllTile(Shown(log, since, before), since, c.Arrived(log));
    }
  }

  /** End to end over any number of reconnects to one bus: up to its resume position, a tail renders
      exactly the events that some connection delivered above the position it had asked for, and
      reports as missing exactly those that none did. */
  lemma GapsAreLossesOverReconnects(log: seq<B.Event>, since: nat, cs: seq<Connection>, n: nat)
    requires B.Numbered(log) && Resumes(log, since, cs) && since < n <= Shown(log, since, cs).position
    ensures Rendered(n) in Shown(log, since, cs).lines <==> SomeBrought(log, cs, n)
    ensures Reported(Shown(log, since, cs).lines, n) <==> !SomeBrought(log, cs, n)
  {
    ShownTiles(log, since, cs, n);
    OneReport(Shown(log, since, cs).lines, since, Shown(log, since, cs).position, n);
  }

  /** A connection that asked for n does not bring it exactly when the bus had lost it, could not
      queue it, or had it queued behind the last event that arrived. */
  lemma NotBroughtExactly(log: seq<B.Event>, c: Connection, n: nat)
    requires B.Numbered(log) && c.Sound(log) && c.stream.since < n <= c.stream.account.Through()
    ensures !c.Brought(log, n) <==>
              || B.Missed(c.stream, n) || log[n - 1] in c.stream.account.Lost(log)
              || (log[n - 1] in c.stream.account.Sent(log)
                  && (c.received == 0 || Queued(log, c.stream)[c.received - 1] < n))
  {
    var queued := Queued(log, c.stream);
    QueuedMember(log, c.stream, n);
    B.Partition(log, c.stream, n);
    QueuedAscends(log, c.stream);
    if c.received > 0 {
      if n <= queued[c.received - 1] {
        InPrefix(c.stream.account.first, queued, c.received, n);
      } else if n in queued[..c.received] {
        var i :| 0 <= i < c.received && queued[..c.received][i] == n;
        AscendingPrefix(c.stream.account.first, queued, c.received);
        AscendingBounds(c.stream.account.first, queued[..c.received], i);
      }
    }
  }

  // ------------------------------------------------------------ finite tails

  /** The queue starts with the replay. */
  lemma {:induction false} ReplayFirst(events: seq<B.Event>, kept: seq<bool>, m: nat)
    requires m <= |events| == |kept| && forall i | 0 <= i < m :: kept[i]
    ensures m <= |B.Select(events, kept, true)| && B.Select(events, kept, true)[..m] == events[..m]
  {
    if m == |events| {
      B.SelectAll(events, kept);
      assert events[..m] == events;
    } else {
      var n := |events| - 1;
      ReplayFirst(events[..n], kept[..n], m);
      assert events[..n][..m] == events[..m];
    }
  }

  /** The last replayed event was the last of the log at the time of the subscription. */
  lemma LastReplayed(log: seq<B.Event>, s: B.Stream)
    requires B.Numbered(log) && s.Sound(log) && s.since < s.start
    ensures 0 < s.start - s.account.first <= |Queued(log, s)|
    ensures Queued(log, s)[s.start - s.account.first - 1] == s.start
  {
    var a, m := s.account, s.start - s.account.first;
    var events, sent := log[a.first..a.Through()], a.Sent(log);
    SliceNumbered(log, a.first, a.Through());
    ReplayFirst(events, a.kept, m);
    SequencesAt(sent);
    assert sent[m - 1] == sent[..m][m - 1] == events[..m][m - 1] == events[m - 1];
  }

  /** The first m queued events take a tail that does not follow to the sequence it ends at, and no
      fewer do. */
  ghost predicate ServedTo(queued: seq<nat>, last: nat, m: nat) {
    0 < m <= |queued| && queued[m - 1] >= last && forall i | 0 <= i < m - 1 :: queued[i] < last
  }

  /** The daemon's loop for a tail that does not follow, over what has been queued so far: it sends up
      to the first event at or above last, which it read after subscribing, and otherwise waits. */
  method ServeFinite(queued: seq<nat>, since: nat, last: nat) returns (m: nat, ended: bool)
    ensures ended <==> last <= since || exists n :: n in queued && n >= last
    ensures if !ended then m == |queued| else if last <= since then m == 0 else ServedTo(queued, last, m)
  {
    m := 0;
    if last <= since { return m, true; }
    while m < |queued|
      invariant m <= |queued| && forall i | 0 <= i < m :: queued[i] < last
    {
      m := m + 1;
      if queued[m - 1] >= last {
        assert queued[m - 1] in queued;
        return m, true;
      }
    }
    return m, false;
  }

  /** It ends if and only if the bus queued the event that was last, or a later one. */
  lemma FiniteTailEndsExactly(log: seq<B.Event>, s: B.Stream, last: nat)
    requires s.Sound(log)
    ensures (exists m :: ServedTo(Queued(log, s), last, m))
            <==> exists e :: e in s.account.Sent(log) && e.sequence >= last
  {
    var queued, sent := Queued(log, s), s.account.Sent(log);
    SequencesAt(sent);
    if m :| ServedTo(queued, last, m) { assert sent[m - 1] in sent; }
    if e :| e in sent && e.sequence >= last {
      var j :| 0 <= j < |sent| && sent[j] == e;
      var m := FirstFrom(queued, last, j);
    }
  }

  lemma {:induction false} FirstFrom(queued: seq<nat>, last: nat, j: nat) returns (m: nat)
    requires j < |queued| && queued[j] >= last
    ensures ServedTo(queued, last, m)
  {
    m := j + 1;
    if i :| 0 <= i < j && queued[i] >= last { m := FirstFrom(queued, last, i); }
  }

  /** When it ends it has accounted for everything from its position through last. */
  lemma FiniteTailAccounts(log: seq<B.Event>, s: B.Stream, last: nat, m: nat)
    requires B.Numbered(log) && s.Sound(log) && s.since < last && ServedTo(Queued(log, s), last, m)
    ensures last <= Reports(log, s, m).position == Queued(log, s)[m - 1]
    ensures Tiles(Reports(log, s, m).lines, s.since, Reports(log, s, m).position)
  {
    var d := Received(log, s, m);
    T.ReportsTile(s.since, Queued(log, s)[..m][d..]);
  }

  /** When nothing was published between its subscription and the reading of last, it ends with the
      last event replayed. */
  lemma FiniteTailReachesLast(log: seq<B.Event>, s: B.Stream)
    requires B.Numbered(log) && s.Sound(log) && s.since < s.start
    ensures var m := s.start - s.account.first;
            ServedTo(Queued(log, s), s.start, m) && Reports(log, s, m).position == s.start
            && Tiles(Reports(log, s, m).lines, s.since, s.start)
  {
    var queued, m := Queued(log, s), s.start - s.account.first;
    LastReplayed(log, s);
    QueuedAscends(log, s);
    forall i | 0 <= i < m - 1
      ensures queued[i] < s.start
    {
      AscendingPair(s.account.first, queued, i, m - 1);
    }
    FiniteTailAccounts(log, s, s.start, m);
  }

  /** Otherwise it may wait: 64 replayed events fill the daemon's buffer, the event after them is
      dropped, and it is the one that was last. */
  lemma FiniteTailWaitsExample(log: seq<B.Event>)
    requires B.Numbered(log) && |log| == 65
    ensures var s := B.Books(1024, log[..64], false, 0, []).Opened(0, 64).Offered(log[64]);
            s.Sound(log) && s.since < 65 && forall m :: !ServedTo(Queued(log, s), 65, m)
  {
    var b := B.Books(1024, log[..64], false, 0, []);
    var s := b.Opened(0, 64).Offered(log[64]);
    B.OpenedIsSound(b, 0, 64);
    b.Opened(0, 64).SoundOffered(log[..64], log[64]);
    assert log[..64] + [log[64]] == log;
    assert s.account.Sent(log) == s.account.Sent(log)[0..] == s.queue == log[..64];
    SequencesAt(log[..64]);
  }

  lemma OneReport(lines: seq<Line>, after: nat, end: nat, n: nat)
    requires Tiles(lines, after, end) && after < n <= end
    ensures Reported(lines, n) <==> Rendered(n) !in lines
  {
    var k := TilesCover(lines, after, end, n);
    if Rendered(n) in lines {
      var j :| 0 <= j < |lines| && lines[j] == Rendered(n);
      assert lines[j].Covers(n);
    }
  }
}
