/** The event bus of internal/server: a ring buffer that refines the tail of an append-only
    log, and subscriptions that never make a publisher wait. */
module Bus {
  datatype Event = Event(sequence: nat, schema: nat, time: nat, body: string)

  const SCHEMA: nat := 1

  const DEFAULT_CAPACITY: nat := 1024

  // ------------------------------------------------------------ logs and what was kept of them

  /** Event n of the log, counting from one, carries sequence n. */
  ghost predicate Numbered(log: seq<Event>) {
    forall i | 0 <= i < |log| :: log[i].sequence == i + 1
  }

  lemma NumberedSnoc(log: seq<Event>, e: Event)
    requires Numbered(log) && e.sequence == |log| + 1
    ensures Numbered(log + [e])
  {
  }

  /** The events whose flag is want, in order. */
  ghost function Select(events: seq<Event>, kept: seq<bool>, want: bool): seq<Event>
    requires |events| == |kept|
  {
    if events == [] then []
    else
      var n := |events| - 1;
      Select(events[..n], kept[..n], want) + if kept[n] == want then [events[n]] else []
  }

  lemma SelectSnoc(events: seq<Event>, kept: seq<bool>, want: bool, e: Event, flag: bool)
    requires |events| == |kept|
    ensures Select(events + [e], kept + [flag], want)
            == Select(events, kept, want) + if flag == want then [e] else []
  {
    assert (events + [e])[..|events|] == events && (kept + [flag])[..|kept|] == kept;
  }

  lemma {:induction false} SelectAll(events: seq<Event>, kept: seq<bool>)
    requires |events| == |kept| && forall i | 0 <= i < |kept| :: kept[i]
    ensures Select(events, kept, true) == events && Select(events, kept, false) == []
  {
    if events != [] {
      var n := |events| - 1;
      SelectAll(events[..n], kept[..n]);
      assert events == events[..n] + [events[n]];
    }
  }

  function Flags(n: nat): (flags: seq<bool>)
    ensures |flags| == n && forall i | 0 <= i < n :: flags[i]
  {
    seq(n, _ => true)
  }

  lemma {:induction false} SelectLength(events: seq<Event>, kept: seq<bool>)
    requires |events| == |kept|
    ensures |Select(events, kept, true)| + |Select(events, kept, false)| == |events|
  {
    if events != [] { SelectLength(events[..|events| - 1], kept[..|kept| - 1]); }
  }

  lemma {:induction false} SelectMember(events: seq<Event>, kept: seq<bool>, want: bool, e: Event)
    requires |events| == |kept|
    ensures e in Select(events, kept, want) <==> exists i :: 0 <= i < |events| && events[i] == e && kept[i] == want
  {
    if events != [] {
      var n := |events| - 1;
      SelectMember(events[..n], kept[..n], want, e);
      if i :| 0 <= i < |events| && events[i] == e && kept[i] == want {
        assert i < n ==> events[..n][i] == e && kept[..n][i] == want;
      }
    }
  }

  // ------------------------------------------------------------ subscriptions as values

  /** What became of the events offered to one subscription: it covers the log from first on,
      kept says which events were queued, taken how many of those the consumer has. */
  datatype Account = Account(first: nat, kept: seq<bool>, taken: nat) {
    /** The last sequence offered. */
    ghost function Through(): nat {
      first + |kept|
    }

    ghost function Sent(log: seq<Event>): seq<Event>
      requires Through() <= |log|
    {
      Select(log[first..Through()], kept, true)
    }

    ghost function Lost(log: seq<Event>): seq<Event>
      requires Through() <= |log|
    {
      Select(log[first..Through()], kept, false)
    }

    /** The queue holds what was queued and not yet taken; dropped counts the rest. */
    ghost predicate Fits(log: seq<Event>, queue: seq<Event>, dropped: nat, open: bool) {
      Through() <= |log| && (open ==> Through() == |log|)
      && taken <= |Sent(log)| && queue == Sent(log)[taken..] && dropped == |Lost(log)|
    }

    ghost function Offered(accepted: bool): Account {
      this.(kept := kept + [accepted])
    }

    lemma FitsOffered(log: seq<Event>, queue: seq<Event>, dropped: nat, event: Event, accepted: bool)
      requires Fits(log, queue, dropped, true)
      ensures Offered(accepted).Fits(log + [event], if accepted then queue + [event] else queue,
                                     if accepted then dropped else dropped + 1, true)
    {
      var events, grown, next := log[first..Through()], log + [event], Offered(accepted);
      assert grown[first..next.Through()] == events + [event];
      SelectSnoc(events, kept, true, event, accepted);
      SelectSnoc(events, kept, false, event, accepted);
    }

    lemma FitsSettled(log: seq<Event>, queue: seq<Event>, dropped: nat, event: Event)
      requires Fits(log, queue, dropped, false)
      ensures Fits(log + [event], queue, dropped, false)
    {
      assert (log + [event])[first..Through()] == log[first..Through()];
    }

    lemma FitsTaken(log: seq<Event>, queue: seq<Event>, dropped: nat, open: bool)
      requires Fits(log, queue, dropped, open) && queue != []
      ensures this.(taken := taken + 1).Fits(log, queue[1..], dropped, open)
    {
      var next := this.(taken := taken + 1);
      assert next.Sent(log) == Sent(log);
    }
  }

  /** The state of one subscription. since is what it asked for, start the last sequence then. */
  datatype Stream = Stream(queue: seq<Event>, buffer: nat, open: bool, dropped: nat, warned: bool,
                           missed: nat, hasMissed: bool, since: nat, start: nat, account: Account)
  {
    function Accepts(): bool {
      |queue| < buffer
    }

    /** An offer never waits: without room the event is dropped. */
    function Offered(e: Event): Stream {
      if !open then this
      else if Accepts() then this.(queue := queue + [e], account := account.(kept := account.kept + [true]))
      else this.(dropped := dropped + 1, warned := true, account := account.(kept := account.kept + [false]))
    }

    function Taken(): Stream
      requires queue != []
    {
      this.(queue := queue[1..], account := account.(taken := account.taken + 1))
    }

    function Ended(): Stream {
      this.(open := false)
    }

    ghost predicate Sound(log: seq<Event>) {
      account.Fits(log, queue, dropped, open) && |queue| <= buffer && (warned <==> dropped > 0) && start <= |log|
      && ReplayKept()
      && if hasMissed then missed == account.first && since < missed < start
         else missed == 0 && account.first == if since < start then since else start
    }

    /** Everything replayed at the start was queued. */
    ghost predicate ReplayKept() {
      account.first <= start <= account.Through()
      && forall i | 0 <= i < start - account.first :: account.kept[i]
    }

    lemma SoundOffered(log: seq<Event>, e: Event)
      requires Sound(log)
      ensures Offered(e).Sound(log + [e])
    {
      if open {
        account.FitsOffered(log, queue, dropped, e, Accepts());
      } else {
        account.FitsSettled(log, queue, dropped, e);
      }
    }

    lemma SoundEnded(log: seq<Event>)
      requires Sound(log)
      ensures Ended().Sound(log)
    {
    }

    lemma SoundTaken(log: seq<Event>)
      requires Sound(log) && queue != []
      ensures Taken().Sound(log)
    {
      account.FitsTaken(log, queue, dropped, open);
    }
  }

  // ------------------------------------------------------------ the bus as a value

  /** The state of the bus: the log of everything published, and every subscription ever made. */
  datatype Books = Books(capacity: nat, log: seq<Event>, closed: bool, dropped: nat, streams: seq<Stream>) {
    /** How many events are still retained. */
    function Window(): nat {
      if |log| < capacity then |log| else capacity
    }

    function Stamped(event: Event, now: nat): Event {
      Event(|log| + 1, SCHEMA, if event.time == 0 then now else event.time, event.body)
    }

    function Recorded(e: Event): Books {
      this.(log := log + [e], dropped := dropped + Full(streams), streams := OfferedAll(streams, e))
    }

    function Published(event: Event, now: nat): Books {
      if closed then this else Recorded(Stamped(event, now))
    }

    /** The replay starts after since, or at the oldest retained event when that is later. */
    function Opened(since: nat, buffer: nat): Stream {
      var oldest := |log| - Window();
      var late := since < oldest;
      var first := if late then oldest else if since < |log| then since else |log|;
      var room := if |log| - first > buffer then |log| - first else buffer;
      Stream(log[first..], room, !closed, 0, false, if late then oldest else 0, late, since, |log|,
             Account(first, Flags(|log| - first), 0))
    }

    function Subscribed(since: nat, buffer: nat): Books {
      this.(streams := streams + [Opened(since, buffer)])
    }

    function With(i: nat, s: Stream): Books
      requires i < |streams|
    {
      this.(streams := streams[i := s])
    }

    function Closed(): Books {
      this.(closed := true, streams := EndedAll(streams))
    }

    ghost predicate Sound() {
      capacity > 0 && Numbered(log) && dropped == Sum(streams)
      && (forall i | 0 <= i < |streams| :: streams[i].Sound(log)) && (closed ==> AllEnded(streams))
    }
  }

  function OfferedAll(streams: seq<Stream>, e: Event): seq<Stream> {
    seq(|streams|, i requires 0 <= i < |streams| => streams[i].Offered(e))
  }

  function EndedAll(streams: seq<Stream>): seq<Stream> {
    seq(|streams|, i requires 0 <= i < |streams| => streams[i].Ended())
  }

  ghost predicate AllEnded(streams: seq<Stream>) {
    forall i | 0 <= i < |streams| :: !streams[i].open
  }

  /** How many open subscriptions have no room. */
  function Full(streams: seq<Stream>): nat {
    if streams == [] then 0
    else
      var s := streams[|streams| - 1];
      Full(streams[..|streams| - 1]) + if s.open && !s.Accepts() then 1 else 0
  }

  ghost function Sum(streams: seq<Stream>): nat {
    if streams == [] then 0 else Sum(streams[..|streams| - 1]) + streams[|streams| - 1].dropped
  }

  lemma {:induction false} SumOffered(streams: seq<Stream>, e: Event)
    ensures Sum(OfferedAll(streams, e)) == Sum(streams) + Full(streams)
  {
    if streams != [] {
      var init := streams[..|streams| - 1];
      SumOffered(init, e);
      assert OfferedAll(streams, e)[..|init|] == OfferedAll(init, e);
    }
  }

  lemma {:induction false} SumEnded(streams: seq<Stream>)
    ensures Sum(EndedAll(streams)) == Sum(streams)
  {
    if streams != [] {
      var init := streams[..|streams| - 1];
      SumEnded(init);
      assert EndedAll(streams)[..|init|] == EndedAll(init);
    }
  }

  lemma {:induction false} SumUpdate(streams: seq<Stream>, i: nat, s: Stream)
    requires i < |streams|
    ensures Sum(streams[i := s]) == Sum(streams) - streams[i].dropped + s.dropped
  {
    var n := |streams| - 1;
    if i < n {
      assert streams[i := s][..n] == streams[..n][i := s];
      SumUpdate(streams[..n], i, s);
    } else {
      assert streams[i := s][..n] == streams[..n];
    }
  }

  // ------------------------------------------------------------ what every run keeps

  datatype Action =
    | Publish(event: Event, now: nat)
    | Subscribe(since: nat, buffer: nat)
    | Receive(i: nat)
    | Unsubscribe(i: nat)
    | Close

  function Next(b: Books, a: Action): Books {
    match a
    case Publish(event, now) => b.Published(event, now)
    case Subscribe(since, buffer) => b.Subscribed(since, buffer)
    case Receive(i) =>
      if i < |b.streams| && b.streams[i].queue != [] then b.With(i, b.streams[i].Taken()) else b
    case Unsubscribe(i) => if i < |b.streams| then b.With(i, b.streams[i].Ended()) else b
    case Close => b.Closed()
  }

  function Run(b: Books, actions: seq<Action>): Books {
    if actions == [] then b else Next(Run(b, actions[..|actions| - 1]), actions[|actions| - 1])
  }

  function Fresh(capacity: nat): Books {
    Books(capacity, [], false, 0, [])
  }

  lemma SoundPublished(b: Books, event: Event, now: nat)
    requires b.Sound()
    ensures b.Published(event, now).Sound()
  {
    if !b.closed {
      var e := b.Stamped(event, now);
      SumOffered(b.streams, e);
      forall i | 0 <= i < |b.streams|
        ensures b.streams[i].Offered(e).Sound(b.log + [e])
      {
        b.streams[i].SoundOffered(b.log, e);
      }
    }
  }

  lemma SoundSubscribed(b: Books, since: nat, buffer: nat)
    requires b.Sound()
    ensures b.Subscribed(since, buffer).Sound()
  {
    OpenedIsSound(b, since, buffer);
    SoundMore(b, b.Opened(since, buffer));
  }

  lemma SoundMore(b: Books, s: Stream)
    requires b.Sound() && s.Sound(b.log) && s.dropped == 0 && (b.closed ==> !s.open)
    ensures b.(streams := b.streams + [s]).Sound()
  {
    SumSnoc(b.streams, s);
  }

  lemma SumSnoc(streams: seq<Stream>, s: Stream)
    ensures Sum(streams + [s]) == Sum(streams) + s.dropped
  {
    assert (streams + [s])[..|streams|] == streams;
  }

  lemma OpenedIsSound(b: Books, since: nat, buffer: nat)
    requires b.capacity > 0
    ensures b.Opened(since, buffer).Sound(b.log)
  {
    var s := b.Opened(since, buffer);
    assert s.account.Through() == |b.log| && b.log[s.account.first..|b.log|] == b.log[s.account.first..];
    SelectAll(s.queue, s.account.kept);
    assert s.account.Sent(b.log) == s.queue && s.account.Lost(b.log) == [];
  }

  lemma SoundWith(b: Books, i: nat, s: Stream)
    requires b.Sound() && i < |b.streams| && s.Sound(b.log)
    requires s.dropped == b.streams[i].dropped && (s.open ==> b.streams[i].open)
    ensures b.With(i, s).Sound()
  {
    SumUpdate(b.streams, i, s);
  }

  lemma SoundNext(b: Books, a: Action)
    requires b.Sound()
    ensures Next(b, a).Sound()
  {
    match a
    case Publish(event, now) => SoundPublished(b, event, now);
    case Subscribe(since, buffer) => SoundSubscribed(b, since, buffer);
    case Receive(i) =>
      if i < |b.streams| && b.streams[i].queue != [] {
        b.streams[i].SoundTaken(b.log);
        SoundWith(b, i, b.streams[i].Taken());
      }
    case Unsubscribe(i) =>
      if i < |b.streams| {
        b.streams[i].SoundEnded(b.log);
        SoundWith(b, i, b.streams[i].Ended());
      }
    case Close => SoundClosed(b);
  }

  lemma SoundClosed(b: Books)
    requires b.Sound()
    ensures b.Closed().Sound()
  {
    SumEnded(b.streams);
    forall i | 0 <= i < |b.streams|
      ensures b.streams[i].Ended().Sound(b.log)
    {
      b.streams[i].SoundEnded(b.log);
    }
  }

  /** Every run keeps the books sound: in particular the global drop count is the sum over all
      subscriptions ever made. */
  lemma {:induction false} EveryRunIsSound(capacity: nat, actions: seq<Action>)
    requires capacity > 0
    ensures Run(Fresh(capacity), actions).Sound()
  {
    if actions != [] {
      EveryRunIsSound(capacity, actions[..|actions| - 1]);
      SoundNext(Run(Fresh(capacity), actions[..|actions| - 1]), actions[|actions| - 1]);
    }
  }

  /** The publications before the bus is closed, in order. */
  ghost function Publications(actions: seq<Action>): seq<Action> {
    if actions == [] then []
    else
      var n := |actions| - 1;
      var before := Publications(actions[..n]);
      if actions[n].Publish? && Close !in actions[..n] then before + [actions[n]] else before
  }

  /** Event i of the log is publication i as it was given: its body, and its time when it has one,
      otherwise the clock's; only the sequence and the schema are the bus's own. */
  ghost predicate Records(log: seq<Event>, given: seq<Action>) {
    |log| == |given|
    && forall i | 0 <= i < |given| :: given[i].Publish? && RecordOf(log[i], i + 1, given[i].event, given[i].now)
  }

  ghost predicate RecordOf(e: Event, number: nat, event: Event, now: nat) {
    e.sequence == number && e.schema == 1 && e.body == event.body
    && e.time == if event.time == 0 then now else event.time
  }

  /** In every run the log holds exactly what was published while the bus was open. */
  lemma {:induction false} LogIsWhatWasPublished(capacity: nat, actions: seq<Action>)
    ensures Records(Run(Fresh(capacity), actions).log, Publications(actions))
    ensures Run(Fresh(capacity), actions).closed <==> Close in actions
  {
    if actions != [] {
      var n := |actions| - 1;
      LogIsWhatWasPublished(capacity, actions[..n]);
      RecordsNext(Run(Fresh(capacity), actions[..n]), Publications(actions[..n]), actions[n]);
      CloseIn(actions, n);
    }
  }

  lemma RecordsNext(b: Books, given: seq<Action>, a: Action)
    requires Records(b.log, given)
    ensures Records(Next(b, a).log, if a.Publish? && !b.closed then given + [a] else given)
    ensures Next(b, a).closed <==> b.closed || a == Close
  {
  }

  lemma CloseIn(actions: seq<Action>, n: nat)
    requires |actions| == n + 1
    ensures Close in actions <==> Close in actions[..n] || actions[n] == Close
  {
    assert actions == actions[..n] + [actions[n]];
  }

  /** A publication reaches every open subscription with room for it, as the last event of the log,
      and is counted as dropped by exactly the others that are open. */
  lemma OfferedExactly(b: Books, event: Event, now: nat, i: nat)
    requires i < |b.streams|
    ensures var next := b.Published(event, now); |next.streams| == |b.streams|
    ensures var s, next := b.streams[i], b.Published(event, now);
            var s' := next.streams[i];
            if b.closed || !s.open then s' == s
            else if |s.queue| < s.buffer then s'.queue == s.queue + [next.log[|b.log|]] && s'.dropped == s.dropped
            else s'.queue == s.queue && s'.dropped == s.dropped + 1
  {
  }

  /** A new subscription finds queued exactly the events after its position that the ring still holds,
      learns that it missed some exactly when the ring does not hold the first of them, and has room
      for what it asked for and for its replay. */
  lemma OpenedExactly(b: Books, since: nat, buffer: nat, n: nat)
    requires Numbered(b.log)
    ensures 0 < n <= |b.log| ==>
      (b.log[n - 1] in b.Opened(since, buffer).queue <==> since < n && |b.log| < n + b.capacity)
    ensures var s := b.Opened(since, buffer);
            (s.hasMissed <==> since + b.capacity < |b.log|)
            && (s.hasMissed ==> s.missed + b.capacity == |b.log|)
            && s.buffer >= buffer && s.buffer >= |s.queue| && (s.buffer == buffer || s.buffer == |s.queue|)
            && s.open == !b.closed && s.dropped == 0
  {
    var s := b.Opened(since, buffer);
    var first := s.account.first;
    if 0 < n <= |b.log| {
      if first < n { assert s.queue[n - 1 - first] == b.log[n - 1]; }
      if b.log[n - 1] in s.queue {
        var j :| 0 <= j < |s.queue| && s.queue[j] == b.log[n - 1];
        assert b.log[first + j].sequence == b.log[n - 1].sequence;
      }
    }
  }

  /** Later actions leave a subscription's position and room as they are. */
  lemma StreamStays(b: Books, a: Action, i: nat)
    requires i < |b.streams|
    ensures i < |Next(b, a).streams|
    ensures var s, s' := b.streams[i], Next(b, a).streams[i];
            s'.since == s.since && s'.start == s.start && s'.buffer == s.buffer && (s'.open ==> s.open)
  {
  }

  /** Sequence n is in the range reported as missed. */
  ghost predicate Missed(s: Stream, n: nat) {
    s.hasMissed && s.since < n <= s.missed
  }

  /** The partition: every sequence after the position asked for, up to the last one offered, was
      reported missed, or queued, or counted as dropped, and only one of these. */
  lemma Partition(log: seq<Event>, s: Stream, n: nat)
    requires Numbered(log) && s.Sound(log)
    requires (if s.since < s.start then s.since else s.start) < n <= s.account.Through()
    ensures Missed(s, n) <==> n <= s.account.first
    ensures log[n - 1] in s.account.Sent(log) ==> n > s.account.first && log[n - 1] !in s.account.Lost(log)
    ensures n > s.account.first ==> log[n - 1] in s.account.Sent(log) || log[n - 1] in s.account.Lost(log)
  {
    var a := s.account;
    OnlyAt(log, a.first, a.Through(), n);
    SelectOne(log[a.first..a.Through()], a.kept, n - 1 - a.first, log[n - 1]);
  }

  /** An event that occurs only at position j is on the side its flag says. */
  lemma SelectOne(events: seq<Event>, kept: seq<bool>, j: int, e: Event)
    requires |events| == |kept| && j < |events|
    requires forall i | 0 <= i < |events| :: events[i] == e <==> i == j
    ensures e in Select(events, kept, true) <==> j >= 0 && kept[j]
    ensures e in Select(events, kept, false) <==> j >= 0 && !kept[j]
  {
    SelectMember(events, kept, true, e);
    SelectMember(events, kept, false, e);
    if j >= 0 { assert events[j] == e; }
  }

  lemma OnlyAt(log: seq<Event>, first: nat, through: nat, n: nat)
    requires Numbered(log) && first <= through <= |log| && 0 < n <= through
    ensures forall i | 0 <= i < through - first :: log[first..through][i] == log[n - 1] <==> i == n - 1 - first
  {
    forall i | 0 <= i < through - first
      ensures log[first..through][i] == log[n - 1] <==> i == n - 1 - first
    {
      assert log[first + i].sequence == first + i + 1 && log[n - 1].sequence == n;
    }
  }

  /** The replay is never dropped, however small the buffer. */
  lemma ReplayNeverDropped(log: seq<Event>, s: Stream, n: nat)
    requires Numbered(log) && s.Sound(log) && s.account.first < n <= s.start
    ensures log[n - 1] in s.account.Sent(log)
  {
    var a := s.account;
    assert a.kept[n - 1 - a.first] && log[a.first..a.Through()][n - 1 - a.first] == log[n - 1];
    SelectMember(log[a.first..a.Through()], a.kept, true, log[n - 1]);
  }

  /** Counting: nothing but what is missed, queued or dropped lies after the position asked for. */
  lemma Conservation(log: seq<Event>, s: Stream)
    requires s.Sound(log)
    ensures |s.account.Sent(log)| + s.dropped + s.account.first == s.account.Through()
    ensures s.open ==> s.account.Through() == |log|
  {
    SelectLength(log[s.account.first..s.account.Through()], s.account.kept);
  }

  // ------------------------------------------------------------ subscriptions and the bus as objects

  datatype Received = Got(event: Event) | Empty | AtEnd

  class Subscription {
    const bus: Bus
    const buffer: nat
    var queue: seq<Event>
    var open: bool
    var dropped: nat
    var warned: bool
    const missed: nat
    const hasMissed: bool
    ghost const index: nat

    ghost predicate Shows(s: Stream)
      reads this
    {
      queue == s.queue && buffer == s.buffer && open == s.open && dropped == s.dropped && warned == s.warned
      && missed == s.missed && hasMissed == s.hasMissed
    }

    constructor (bus: Bus, buffer: nat, missed: nat, hasMissed: bool, replay: seq<Event>, open: bool, ghost index: nat)
      ensures this.bus == bus && this.index == index && this.buffer == buffer && queue == replay
      ensures this.open == open && dropped == 0 && !warned && this.missed == missed && this.hasMissed == hasMissed
    {
      this.bus, this.buffer, this.missed, this.hasMissed, this.index := bus, buffer, missed, hasMissed, index;
      this.queue, this.open, this.dropped, this.warned := replay, open, 0, false;
    }

    /** Takes the event when there is room and counts it as dropped otherwise. */
    method Offer(event: Event, ghost s: Stream) returns (accepted: bool)
      requires Shows(s) && open
      modifies this
      ensures Shows(s.Offered(event)) && accepted == s.Accepts()
    {
      accepted := |queue| < buffer;
      if accepted {
        queue := queue + [event];
      } else {
        dropped := dropped + 1;
        warned := true;
      }
    }
  }

  class Bus {
    const capacity: nat
    const ring: array<Event>
    var head: nat
    var count: nat
    var next: nat
    var closed: bool
    var subs: set<Subscription>
    var published: nat
    var dropped: nat
    ghost var books: Books
    ghost var ever: seq<Subscription>

    /** The ring holds exactly the last events of the log, oldest first. */
    ghost predicate RingValid(log: seq<Event>)
      reads this`head, this`count, this`next, this`published, ring
    {
      && ring.Length == capacity > 0 && head < capacity && (count < capacity ==> head == 0)
      && next == published == |log| && count == (if |log| < capacity then |log| else capacity)
      && forall k | 0 <= k < count :: ring[Wrap(head, k, capacity)] == log[|log| - count + k]
    }

    /** s is one of the subscriptions of this bus. */
    ghost predicate Made(s: Subscription)
      reads this`ever
    {
      s.index < |ever| && ever[s.index] == s
    }

    /** The subscriptions show these streams; the open ones are registered. */
    ghost predicate Shows(streams: seq<Stream>)
      reads this`ever, this`subs, ever
    {
      |streams| == |ever|
      && (forall i | 0 <= i < |ever| ::
            ever[i].index == i && ever[i].bus == this && ever[i].Shows(streams[i])
            && (ever[i].open <==> ever[i] in subs))
      && (forall s | s in subs :: Made(s))
    }

    ghost predicate Valid()
      reads this, ring, ever
    {
      RingValid(books.log) && Shows(books.streams) && dropped == books.dropped && closed == books.closed
      && capacity == books.capacity && Numbered(books.log) && (closed ==> subs == {})
    }

    constructor (capacity: int)
      ensures Valid() && books == Fresh(if capacity <= 0 then DEFAULT_CAPACITY else capacity)
    {
      var size: nat := if capacity <= 0 then DEFAULT_CAPACITY else capacity;
      this.capacity := size;
      ring := new Event[size](_ => Event(0, 0, 0, ""));
      head, count, next, closed, subs, published, dropped := 0, 0, 0, false, {}, 0, 0;
      books, ever := Fresh(size), [];
    }

    /** Appends to the ring, over the oldest event when it is full. */
    method Append(event: Event, ghost log: seq<Event>)
      requires RingValid(log)
      modifies this`head, this`count, this`next, this`published, ring
      ensures RingValid(log + [event])
    {
      next, published := next + 1, published + 1;
      WrapIsModulo(head, count, capacity);
      WrapIsModulo(head, 1, capacity);
      if count < capacity {
        var index := (head + count) % capacity;
        ring[index] := event;
        count := count + 1;
      } else {
        ghost var was := head;
        ring[head] := event;
        head := (head + 1) % capacity;
        forall k | 0 <= k < count
          ensures ring[Wrap(head, k, capacity)] == (log + [event])[k + |log| + 1 - count]
        {
          assert Wrap(head, k, capacity) == if k == count - 1 then was else Wrap(was, k + 1, capacity);
        }
      }
    }

    /** Records the event under the next sequence and offers it to every open subscription
        without waiting; returns zero once closed. */
    method Publish(event: Event, now: nat) returns (number: nat)
      requires Valid()
      modifies this, ring, ever
      ensures Valid() && ever == old(ever) && books == old(books).Published(event, now)
      ensures number == if old(closed) then 0 else |books.log|
    {
      if closed { return 0; }
      var e := Event(next + 1, SCHEMA, if event.time == 0 then now else event.time, event.body);
      Record(e);
      return e.sequence;
    }

    method Record(e: Event)
      requires Valid() && !closed && e.sequence == next + 1
      modifies this, ring, ever
      ensures Valid() && ever == old(ever) && books == old(books).Recorded(e)
    {
      ghost var after := books.Recorded(e);
      ghost var log, streams := books.log, books.streams;
      NumberedSnoc(log, e);
      Spread(e, log, streams);
      Commit(after);
    }

    /** Keeps the event in the ring and offers it to the subscriptions. */
    method Spread(e: Event, ghost log: seq<Event>, ghost streams: seq<Stream>)
      requires RingValid(log) && Shows(streams)
      modifies this`head, this`count, this`next, this`published, this`dropped, ring, ever
      ensures RingValid(log + [e]) && Shows(OfferedAll(streams, e)) && dropped == old(dropped) + Full(streams)
    {
      Append(e, log);
      OfferAll(e, streams);
    }

    /** The fields now show these books. */
    ghost method Commit(after: Books)
      requires RingValid(after.log) && Shows(after.streams) && Numbered(after.log) && dropped == after.dropped
      requires closed == after.closed && capacity == after.capacity && (closed ==> subs == {})
      modifies this`books
      ensures Valid() && books == after
    {
      books := after;
    }

    method OfferOne(e: Event, s: Subscription, ghost now: seq<Stream>)
      requires Shows(now) && s in subs
      modifies this`dropped, s
      ensures Made(s) && Shows(now[s.index := now[s.index].Offered(e)])
      ensures dropped - Sum(now[s.index := now[s.index].Offered(e)]) == old(dropped) - Sum(now)
    {
      var accepted := s.Offer(e, now[s.index]);
      SumUpdate(now, s.index, now[s.index].Offered(e));
      if !accepted { dropped := dropped + 1; }
    }

    lemma MixedStart(before: seq<Stream>, after: seq<Stream>)
      requires Shows(before) && |after| == |before|
      requires forall i | 0 <= i < |before| :: !before[i].open ==> after[i] == before[i]
      ensures Mixed(ever, before, after, subs) == before
    {
    }

    lemma MixedStep(before: seq<Stream>, after: seq<Stream>, rest: set<Subscription>, s: Subscription)
      requires |before| == |after| == |ever| && s in rest && Made(s)
      requires forall i | 0 <= i < |ever| :: ever[i].index == i
      ensures Mixed(ever, before, after, rest)[s.index] == before[s.index]
      ensures Mixed(ever, before, after, rest - {s}) == Mixed(ever, before, after, rest)[s.index := after[s.index]]
    {
      forall i | 0 <= i < |ever|
        ensures ever[i] == s <==> i == s.index
      {
        assert ever[i].index == i;
      }
    }

    /** Offers an event to every open subscription. */
    method OfferAll(e: Event, ghost before: seq<Stream>)
      requires Shows(before)
      modifies this`dropped, ever
      ensures Shows(OfferedAll(before, e)) && dropped == old(dropped) + Full(before)
    {
      ghost var after := OfferedAll(before, e);
      MixedStart(before, after);
      var rest := subs;
      while rest != {}
        invariant rest <= subs && Shows(Mixed(ever, before, after, rest))
        invariant dropped + Sum(before) == old(dropped) + Sum(Mixed(ever, before, after, rest))
      {
        var s :| s in rest;
        assert Made(s);
        MixedStep(before, after, rest, s);
        OfferOne(e, s, Mixed(ever, before, after, rest));
        rest := rest - {s};
      }
      assert Mixed(ever, before, after, {}) == after;
      SumOffered(before, e);
    }

    /** The retained events after since, with the last sequence no longer retained if one is. */
    method Replay(since: nat) returns (replay: seq<Event>, missed: nat, hasMissed: bool)
      requires RingValid(books.log) && Numbered(books.log)
      ensures var oldest, length := |books.log| - count, |books.log|;
              hasMissed == (since < oldest) && missed == (if hasMissed then oldest else 0)
              && replay == books.log[if hasMissed then oldest else if since < length then since else length..]
    {
      if count == 0 { return [], 0, false; }
      var first := At(0);
      var oldest := first.sequence;
      hasMissed := oldest > 0 && since < oldest - 1;
      missed := if hasMissed then oldest - 1 else 0;
      replay := Since(if hasMissed then oldest - 1 else since);
    }

    /** The k-th oldest retained event. */
    method At(k: nat) returns (event: Event)
      requires RingValid(books.log) && Numbered(books.log) && k < count
      ensures event == books.log[|books.log| - count + k] && event.sequence == |books.log| - count + k + 1
    {
      WrapIsModulo(head, k, capacity);
      event := ring[(head + k) % capacity];
    }

    /** The retained events after start. */
    method Since(start: nat) returns (events: seq<Event>)
      requires RingValid(books.log) && Numbered(books.log) && start >= |books.log| - count
      ensures events == After(books.log, start, |books.log|)
    {
      events := [];
      ghost var log, bottom := books.log, |books.log| - count;
      for offset := 0 to count
        invariant events == After(log, start, bottom + offset)
      {
        var event := At(offset);
        AfterStep(log, start, bottom + offset);
        if event.sequence > start { events := events + [event]; }
      }
    }

    /** Replays what is retained after since, then goes live. */
    method Subscribe(since: nat, buffer: int) returns (s: Subscription)
      requires Valid()
      modifies this`subs, this`ever, this`books
      ensures Valid() && fresh(s) && ever == old(ever) + [s]
      ensures books == old(books).Subscribed(since, if buffer < 0 then 0 else buffer)
    {
      var replay, missed, hasMissed := Replay(since);
      var room: nat := if buffer < 0 then 0 else buffer;
      ghost var next := books.Subscribed(since, room);
      OpenedFrom(books, since, room, replay, missed, hasMissed);
      if |replay| > room { room := |replay|; }
      s := new Subscription(this, room, missed, hasMissed, replay, !closed, |ever|);
      Register(s, next.streams[|next.streams| - 1]);
      Commit(next);
    }

    method Register(s: Subscription, ghost stream: Stream)
      requires Shows(books.streams) && s.Shows(stream) && s.bus == this && s.index == |ever| && s.open == !closed
      modifies this`subs, this`ever
      ensures Shows(books.streams + [stream]) && ever == old(ever) + [s] && (closed ==> subs == old(subs))
    {
      if !closed { subs := subs + {s}; }
      ever := ever + [s];
      assert !closed ==> Made(s);
    }

    /** One receive from the channel: a closed channel still delivers what it holds. */
    method Receive(s: Subscription) returns (r: Received)
      requires Valid() && Made(s)
      modifies this`books, s`queue
      ensures Valid() && books == Next(old(books), Action.Receive(s.index))
      ensures r == if old(s.queue) != [] then Got(old(s.queue)[0]) else if s.open then Empty else AtEnd
    {
      if s.queue == [] { return if s.open then Empty else AtEnd; }
      r := Got(s.queue[0]);
      s.queue := s.queue[1..];
      books := books.With(s.index, books.streams[s.index].Taken());
    }

    /** Ends the stream: nothing is published any more and every subscription is closed. */
    method Close()
      requires Valid()
      modifies this`closed, this`subs, this`books, ever
      ensures Valid() && ever == old(ever) && books == old(books).Closed()
    {
      if closed {
        assert EndedAll(books.streams) == books.streams;
        return;
      }
      closed := true;
      EndAll(books.streams);
      Commit(books.Closed());
    }

    method EndAll(ghost before: seq<Stream>)
      requires Shows(before)
      modifies this`subs, ever
      ensures Shows(EndedAll(before)) && subs == {}
    {
      ghost var after := EndedAll(before);
      MixedStart(before, after);
      while subs != {}
        invariant Shows(Mixed(ever, before, after, subs))
        decreases subs
      {
        var s :| s in subs;
        assert Made(s);
        MixedStep(before, after, subs, s);
        EndOne(s, Mixed(ever, before, after, subs));
      }
      assert Mixed(ever, before, after, {}) == after;
    }

    method EndOne(s: Subscription, ghost now: seq<Stream>)
      requires Shows(now) && s in subs
      modifies this`subs, s`open
      ensures Made(s) && subs == old(subs) - {s} && Shows(now[s.index := now[s.index].Ended()])
    {
      s.open := false;
      subs := subs - {s};
    }

    /** Ends one subscription; again, or after the bus closed, it changes nothing. */
    method Unsubscribe(s: Subscription)
      requires Valid() && Made(s)
      modifies this`subs, this`books, s`open
      ensures Valid() && books == Next(old(books), Action.Unsubscribe(s.index))
    {
      if s !in subs { return; }
      EndOne(s, books.streams);
      books := books.With(s.index, books.streams[s.index].Ended());
    }
  }

  /** The events with sequences above start, up to m. */
  function After(log: seq<Event>, start: nat, m: nat): seq<Event>
    requires m <= |log|
  {
    if start < m then log[start..m] else []
  }

  lemma AfterStep(log: seq<Event>, start: nat, m: nat)
    requires m < |log|
    ensures After(log, start, m + 1) == After(log, start, m) + if m + 1 > start then [log[m]] else []
  {
  }

  lemma OpenedFrom(b: Books, since: nat, buffer: nat, replay: seq<Event>, missed: nat, hasMissed: bool)
    requires var oldest, length := |b.log| - b.Window(), |b.log|;
             hasMissed == (since < oldest) && missed == (if hasMissed then oldest else 0)
             && replay == b.log[if hasMissed then oldest else if since < length then since else length..]
    ensures var s := b.Opened(since, buffer);
            s.queue == replay && s.missed == missed && s.hasMissed == hasMissed && s.open == !b.closed
            && s.dropped == 0 && !s.warned && s.buffer == if |replay| > buffer then |replay| else buffer
  {
  }

  /** before for the subscriptions in rest, after for the others. */
  ghost function Mixed(ever: seq<Subscription>, before: seq<Stream>, after: seq<Stream>,
                       rest: set<Subscription>): seq<Stream>
    requires |before| == |after| == |ever|
  {
    seq(|ever|, i requires 0 <= i < |ever| => if ever[i] in rest then before[i] else after[i])
  }

  /** Where the k-th oldest retained event sits. */
  function Wrap(head: nat, k: nat, capacity: nat): nat {
    if head + k < capacity then head + k else if head + k < 2 * capacity then head + k - capacity else 0
  }

  lemma WrapIsModulo(head: nat, k: nat, capacity: nat)
    requires head < capacity && k <= capacity
    ensures Wrap(head, k, capacity) == (head + k) % capacity
  {
  }
}
