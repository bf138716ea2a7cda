/** The frames of one daemon connection, as internal/client reads them. */
module Client {
  datatype Frame = Event(sequence: nat) | Response | WrongSchema | Unreadable

  datatype Code = Unavailable | Internal | SchemaMismatch

  datatype Verdict = Deliver(sequence: nat) | Refuse(code: Code)

  /** An event is delivered only when its sequence is above every earlier one. */
  function Judge(frame: Frame, highest: nat): Verdict {
    match frame
    case Event(sequence) => if sequence <= highest then Refuse(Internal) else Deliver(sequence)
    case WrongSchema => Refuse(SchemaMismatch)
    case _ => Refuse(Unavailable)
  }

  /** The sequences delivered from a connection, in order. */
  function Delivered(frames: seq<Frame>, highest: nat): seq<nat> {
    if frames == [] then []
    else
      match Judge(frames[0], highest)
      case Refuse(_) => []
      case Deliver(sequence) => [sequence] + Delivered(frames[1..], sequence)
  }

  /** How reading a connection ended; the callback may have failed first. */
  datatype StreamEnd = Clean | Failed(code: Code) | CallbackFailed

  function Ended(frames: seq<Frame>, highest: nat): StreamEnd {
    if frames == [] then Clean
    else
      match Judge(frames[0], highest)
      case Refuse(code) => Failed(code)
      case Deliver(sequence) => Ended(frames[1..], sequence)
  }

  /** The frame is an event above those before it: frame i - 1, or highest when it is the first. */
  ghost predicate Follows(frames: seq<Frame>, highest: nat, i: nat)
    requires i < |frames|
  {
    frames[i].Event?
    && if i == 0 then frames[i].sequence > highest
       else frames[i - 1].Event? && frames[i].sequence > frames[i - 1].sequence
  }

  /** The code that a frame which does not follow brings: an event out of order is an internal error,
      a foreign schema a mismatch, anything else means that the daemon is unavailable. */
  function CodeOf(frame: Frame): Code {
    match frame
    case Event(_) => Internal
    case WrongSchema => SchemaMismatch
    case Response => Unavailable
    case Unreadable => Unavailable
  }

  /** What is delivered are the sequences of the first k frames, all that follow one another; the end
      is clean exactly when these are all, and otherwise the next frame gives the error. */
  lemma {:induction false} ReadExactly(frames: seq<Frame>, highest: nat) returns (k: nat)
    ensures k == |Delivered(frames, highest)| <= |frames|
    ensures forall i | 0 <= i < k ::
      Follows(frames, highest, i) && Delivered(frames, highest)[i] == frames[i].sequence
    ensures if k == |frames| then Ended(frames, highest) == Clean
            else !Follows(frames, highest, k) && Ended(frames, highest) == Failed(CodeOf(frames[k]))
  {
    k := 0;
    if frames != [] && Judge(frames[0], highest).Deliver? {
      var n := Judge(frames[0], highest).sequence;
      var rest := ReadExactly(frames[1..], n);
      k := rest + 1;
      forall i | 0 < i < |frames|
        ensures Follows(frames, highest, i) <==> Follows(frames[1..], n, i - 1)
      {
        assert frames[i] == frames[1..][i - 1];
      }
    }
  }

  ghost predicate Ascending(after: nat, sequences: seq<nat>)
    decreases |sequences|
  {
    sequences == [] || (after < sequences[0] && Ascending(sequences[0], sequences[1..]))
  }

  lemma {:induction false} DeliveredAscends(frames: seq<Frame>, highest: nat)
    ensures Ascending(highest, Delivered(frames, highest))
  {
    if frames != [] && Judge(frames[0], highest).Deliver? {
      var n := Judge(frames[0], highest).sequence;
      DeliveredAscends(frames[1..], n);
      assert Delivered(frames, highest)[1..] == Delivered(frames[1..], n);
    }
  }

  /** Frames of increasing events are all delivered. */
  lemma {:induction false} IncreasingDelivered(sequences: seq<nat>, highest: nat)
    requires Ascending(highest, sequences)
    ensures Delivered(Frames(sequences), highest) == sequences && Ended(Frames(sequences), highest) == Clean
  {
    if sequences != [] {
      IncreasingDelivered(sequences[1..], sequences[0]);
      assert Frames(sequences)[1..] == Frames(sequences[1..]);
    }
  }

  function Frames(sequences: seq<nat>): seq<Frame> {
    if sequences == [] then [] else [Event(sequences[0])] + Frames(sequences[1..])
  }
}

/** Reports that account for a stretch of sequences: single events and missing ranges, each
    starting right after the one before it. */
module Tiling {
  datatype Line = Rendered(sequence: nat) | Missed(from: nat, through: nat) {
    function First(): nat {
      match this case Rendered(n) => n case Missed(f, _) => f
    }

    function Last(): nat {
      match this case Rendered(n) => n case Missed(_, t) => t
    }

    predicate Covers(n: nat) {
      First() <= n <= Last()
    }
  }

  ghost predicate Tiles(lines: seq<Line>, after: nat, end: nat) {
    if lines == [] then after == end
    else
      var line := lines[|lines| - 1];
      0 < line.First() <= line.Last() == end && Tiles(lines[..|lines| - 1], after, line.First() - 1)
  }

  lemma TilesSnoc(lines: seq<Line>, after: nat, end: nat, line: Line)
    requires Tiles(lines, after, end) && line.First() == end + 1 <= line.Last()
    ensures Tiles(lines + [line], after, line.Last())
  {
    assert (lines + [line])[..|lines|] == lines;
  }

  /** Reports are in increasing order and each stays inside the stretch. */
  lemma {:induction false} TilesAscend(lines: seq<Line>, after: nat, end: nat, k: nat)
    requires Tiles(lines, after, end) && k < |lines|
    ensures after < lines[k].First() <= lines[k].Last() <= end
    ensures forall j | 0 <= j < k :: lines[j].Last() < lines[k].First()
    decreases |lines|
  {
    var init, line := lines[..|lines| - 1], lines[|lines| - 1];
    if k < |init| {
      TilesAscend(init, after, line.First() - 1, k);
      assert forall j | 0 <= j < k :: init[j] == lines[j];
    } else if init != [] {
      forall j | 0 <= j < k
        ensures lines[j].Last() < line.First() && after < lines[j].First()
      {
        TilesAscend(init, after, line.First() - 1, j);
        assert init[j] == lines[j];
      }
      assert after < lines[0].First();
    }
  }

  /** Exact cover: every sequence of the stretch lies in exactly one report, and nothing else
      lies in any. */
  lemma {:induction false} TilesCover(lines: seq<Line>, after: nat, end: nat, n: nat) returns (k: nat)
    requires Tiles(lines, after, end)
    ensures after < n <= end ==> k < |lines| && lines[k].Covers(n)
    ensures forall j | 0 <= j < |lines| :: lines[j].Covers(n) ==> after < n <= end && j == k
    decreases |lines|
  {
    k := 0;
    if lines != [] {
      var init, line := lines[..|lines| - 1], lines[|lines| - 1];
      k := TilesCover(init, after, line.First() - 1, n);
      assert forall j | 0 <= j < |init| :: init[j] == lines[j];
      TilesAscend(lines, after, end, |init|);
      if line.Covers(n) { k := |init|; }
    }
  }
}

/** The resuming tail of internal/cli: renders events, reports gaps, reconnects. */
module Tail {
  import opened Text
  import opened Client
  import opened Tiling

  /** The events that a connection delivers. */
  function Sequences(a: Attempt): seq<nat> {
    if a.refused then [] else Delivered(a.frames, 0)
  }

  /** How it ends when every write works. */
  function EndOf(a: Attempt): StreamEnd {
    if a.refused then Failed(Unavailable) else Client.Ended(a.frames, 0)
  }

  /** One connection: refused, or its frames up to the end of the stream; and whether the command
      was cancelled by the end of it, or while waiting for the next. */
  datatype Attempt = Attempt(refused: bool, frames: seq<Frame>, cancelled: bool, cancelledWaiting: bool)

  datatype Outcome = Stopped | Finished | Fatal(end: StreamEnd) | Exhausted

  const INITIAL_BACKOFF: nat := 100

  const MAXIMUM_BACKOFF: nat := 5000

  function Doubled(backoff: nat): nat {
    if backoff * 2 > MAXIMUM_BACKOFF then MAXIMUM_BACKOFF else backoff * 2
  }

  /** The wait before the next connection after so many fruitless ones in a row. */
  function Backoff(fruitless: nat): nat {
    if fruitless == 0 then INITIAL_BACKOFF else Doubled(Backoff(fruitless - 1))
  }

  /** How many fruitless attempts the history ends with, not counting a fruitless first one. */
  function Streak(history: seq<bool>): nat {
    if |history| <= 1 || history[|history| - 1] then 0 else Streak(history[..|history| - 1]) + 1
  }

  // ------------------------------------------------------------ what the reports should be

  /** Where the output stands: the resume position, and whether it still waits for a first event. */
  datatype View = View(position: nat, live: bool, lines: seq<Line>)

  function Gap(v: View, sequence: nat): seq<Line> {
    if !v.live && sequence > v.position + 1 then [Missed(v.position + 1, sequence - 1)] else []
  }

  /** One event: skipped when already seen, otherwise rendered after the gap before it. */
  function Seen(v: View, sequence: nat): View {
    if !v.live && sequence <= v.position then v
    else View(sequence, false, v.lines + Gap(v, sequence) + [Rendered(sequence)])
  }

  function SeenAll(v: View, sequences: seq<nat>): View
    decreases |sequences|
  {
    if sequences == [] then v else SeenAll(Seen(v, sequences[0]), sequences[1..])
  }

  lemma {:induction false} SeenSnoc(v: View, sequences: seq<nat>, n: nat)
    ensures SeenAll(v, sequences + [n]) == Seen(SeenAll(v, sequences), n)
    decreases |sequences|
  {
    if sequences == [] {
      assert SeenAll(Seen(v, n), []) == Seen(v, n);
    } else {
      SeenSnoc(Seen(v, sequences[0]), sequences[1..], n);
      assert (sequences + [n])[1..] == sequences[1..] + [n];
    }
  }

  lemma {:induction false} SeenConcat(v: View, a: seq<nat>, b: seq<nat>)
    ensures SeenAll(v, a + b) == SeenAll(SeenAll(v, a), b)
    decreases |a|
  {
    if a == [] {
      assert a + b == b;
    } else {
      SeenConcat(Seen(v, a[0]), a[1..], b);
      assert (a + b)[0] == a[0] && (a + b)[1..] == a[1..] + b;
    }
  }

  lemma SeenTiles(v: View, after: nat, sequence: nat)
    requires Tiles(v.lines, after, v.position) && !v.live
    ensures Tiles(Seen(v, sequence).lines, after, Seen(v, sequence).position)
  {
    if sequence > v.position + 1 {
      var gap := Missed(v.position + 1, sequence - 1);
      TilesSnoc(v.lines, after, v.position, gap);
      TilesSnoc(v.lines + [gap], after, sequence - 1, Rendered(sequence));
    } else if sequence == v.position + 1 {
      TilesSnoc(v.lines, after, v.position, Rendered(sequence));
      assert v.lines + [] == v.lines;
    }
  }

  lemma {:induction false} SeenAllTile(v: View, after: nat, sequences: seq<nat>)
    requires Tiles(v.lines, after, v.position) && !v.live
    ensures var end := SeenAll(v, sequences); Tiles(end.lines, after, end.position) && !end.live
    decreases |sequences|
  {
    if sequences != [] {
      SeenTiles(v, after, sequences[0]);
      SeenAllTile(Seen(v, sequences[0]), after, sequences[1..]);
    }
  }

  /** However many connections delivered them and however they overlap, the events rendered and
      the ranges reported missed tile exactly the sequences from the position asked for to the
      resume position. */
  lemma ReportsTile(since: nat, sequences: seq<nat>)
    ensures var end := SeenAll(View(since, false, []), sequences); Tiles(end.lines, since, end.position) && !end.live
  {
    SeenAllTile(View(since, false, []), since, sequences);
  }

  /** Without a position to start from, the tiling begins at the first event. */
  lemma LiveReportsTile(since: nat, sequences: seq<nat>)
    requires sequences != [] && sequences[0] > 0
    ensures var end := SeenAll(View(since, true, []), sequences);
            Tiles(end.lines, sequences[0] - 1, end.position) && !end.live
  {
    var first := sequences[0];
    var v := Seen(View(since, true, []), first);
    assert Tiles([], first - 1, first - 1);
    TilesSnoc([], first - 1, first - 1, Rendered(first));
    assert v.lines == [] + [Rendered(first)];
    SeenAllTile(v, first - 1, sequences[1..]);
  }

  lemma SeenRenders(v: View, sequence: nat, n: nat)
    requires !v.live && sequence > v.position
    ensures Rendered(n) in Seen(v, sequence).lines <==> Rendered(n) in v.lines || n == sequence
  {
    if Rendered(n) in v.lines { assert Rendered(n) in v.lines + Gap(v, sequence); }
  }

  /** From one stream of increasing sequences every event is rendered, and nothing else. */
  lemma {:induction false} RendersAll(v: View, sequences: seq<nat>, n: nat)
    requires !v.live && Ascending(v.position, sequences)
    ensures Rendered(n) in SeenAll(v, sequences).lines <==> Rendered(n) in v.lines || n in sequences
    decreases |sequences|
  {
    if sequences != [] {
      SeenRenders(v, sequences[0], n);
      RendersAll(Seen(v, sequences[0]), sequences[1..], n);
      assert sequences == [sequences[0]] + sequences[1..];
    }
  }

  // ------------------------------------------------------------ the callback

  /** What the callback of one Run keeps between connections; delivered is history. */
  class Follower {
    var position: nat
    var live: bool
    var hadEvent: bool
    var lines: seq<Line>
    const since: nat
    ghost const startedLive: bool
    ghost var delivered: seq<nat>

    ghost function Current(): View
      reads this
    {
      View(position, live, lines)
    }

    ghost function Start(): View {
      View(since, startedLive, [])
    }

    ghost function Expected(): View
      reads this`delivered
    {
      SeenAll(Start(), delivered)
    }

    ghost predicate Valid()
      reads this
    {
      Current() == Expected()
    }

    /** A write failed at event n: at most the gap before it has been reported. */
    ghost predicate Broken(n: nat)
      reads this
    {
      Current().(lines := Expected().lines) == Expected()
      && (lines == Expected().lines || lines == Expected().lines + Gap(Expected(), n))
    }

    constructor (since: nat, live: bool)
      ensures Valid() && this.since == since && startedLive == live && delivered == []
    {
      position, this.since, this.live, hadEvent, lines := since, since, live, false, [];
      startedLive, delivered := live, [];
    }

    /** Writes one line, unless the output refuses it. */
    method Emit(line: Line) returns (ok: bool)
      modifies this`lines
      ensures lines == if ok then old(lines) + [line] else old(lines)
    {
      ok := *;
      if ok { lines := lines + [line]; }
    }

    /** Reports the gap before an event, then the event. */
    method Report(sequence: nat) returns (ok: bool)
      modifies this`lines
      ensures ok ==> lines == old(lines) + Gap(Current(), sequence) + [Rendered(sequence)]
      ensures !ok ==> lines == old(lines) || lines == old(lines) + Gap(Current(), sequence)
    {
      if !live && sequence > position + 1 {
        ok := Emit(Missed(position + 1, sequence - 1));
        if !ok { return; }
      } else {
        assert lines + Gap(Current(), sequence) == lines;
      }
      ok := Emit(Rendered(sequence));
    }

    /** Skips an event already seen, reports any other. */
    method OnEvent(sequence: nat) returns (ok: bool)
      requires Valid() && sequence > 0
      modifies this
      ensures if ok then Valid() && delivered == old(delivered) + [sequence]
              else Broken(sequence) && delivered == old(delivered)
      ensures ok ==> old(lines) <= lines && hadEvent == (old(hadEvent) || |lines| > |old(lines)|)
    {
      SeenSnoc(View(since, startedLive, []), delivered, sequence);
      if live || sequence > position {
        ok := Report(sequence);
        if !ok { return; }
        position, live, hadEvent := sequence, false, true;
      }
      delivered := delivered + [sequence];
      return true;
    }

    /** Reads one connection to its end, or to the first frame or write that fails; at counts the
        events before that write. */
    method Stream(attempt: Attempt) returns (end: StreamEnd, ghost at: nat)
      requires Valid()
      modifies this
      ensures end == CallbackFailed || end == EndOf(attempt)
      ensures if end == CallbackFailed then StoppedAt(old(delivered), attempt, at)
              else Valid() && delivered == old(delivered) + Sequences(attempt)
      ensures end != CallbackFailed ==>
        old(lines) <= lines && hadEvent == (old(hadEvent) || |lines| > |old(lines)|)
    {
      at := 0;
      if attempt.refused {
        assert delivered + [] == delivered;
        return Failed(Unavailable), at;
      }
      var highest := 0;
      ghost var start := delivered;
      for i := 0 to |attempt.frames|
        invariant Valid() && old(lines) <= lines && hadEvent == (old(hadEvent) || |lines| > |old(lines)|)
        invariant Reading(start, delivered, attempt.frames, i, highest, at)
      {
        ReadFrame(start, delivered, attempt.frames, i, highest, at);
        match Judge(attempt.frames[i], highest)
        case Refuse(code) => return Failed(code), at;
        case Deliver(sequence) =>
          highest := sequence;
          var ok := OnEvent(sequence);
          if !ok { return CallbackFailed, at; }
          at := at + 1;
      }
      assert delivered + [] == delivered;
      return Clean, at;
    }

    /** A write failed at an event of this connection, and the ones before it are out. */
    ghost predicate StoppedAt(before: seq<nat>, attempt: Attempt, at: nat)
      reads this
    {
      at < |Sequences(attempt)| && delivered == before + Sequences(attempt)[..at] && Broken(Sequences(attempt)[at])
    }
  }

  /** The first i frames brought the first at events, and the rest of the frames bring the rest. */
  ghost predicate Reading(start: seq<nat>, delivered: seq<nat>, frames: seq<Frame>, i: nat, highest: nat, at: nat) {
    i <= |frames| && at <= |Delivered(frames, 0)|
    && delivered == start + Delivered(frames, 0)[..at] && Delivered(frames[i..], highest) == Delivered(frames, 0)[at..]
    && Client.Ended(frames[i..], highest) == Client.Ended(frames, 0)
  }

  lemma ReadFrame(start: seq<nat>, delivered: seq<nat>, frames: seq<Frame>, i: nat, highest: nat, at: nat)
    requires i < |frames| && Reading(start, delivered, frames, i, highest, at)
    ensures match Judge(frames[i], highest)
            case Refuse(code) => delivered == start + Delivered(frames, 0) && Client.Ended(frames, 0) == Failed(code)
            case Deliver(sequence) =>
              at < |Delivered(frames, 0)| && Delivered(frames, 0)[at] == sequence
              && Reading(start, delivered + [sequence], frames, i + 1, sequence, at + 1)
  {
    var all, rest := Delivered(frames, 0), frames[i..];
    assert rest[0] == frames[i] && rest[1..] == frames[i + 1..];
    match Judge(frames[i], highest)
    case Refuse(code) =>
      assert all[at..] == [];
      assert all[..at] == all;
    case Deliver(sequence) =>
      assert all[at..] == [sequence] + Delivered(frames[i + 1..], sequence);
      assert all[at] == sequence && all[at + 1..] == all[at..][1..] == Delivered(frames[i + 1..], sequence);
      assert all[..at + 1] == all[..at] + [sequence];
      Associate(start, all[..at], [sequence]);
  }

  // ------------------------------------------------------------ reconnecting

  /** The attempt ended well or brought an event. */
  function Fruitful(end: StreamEnd, hadEvent: bool): bool {
    end == Clean || hadEvent
  }

  /** The events of the first n connections. */
  function AllSequences(attempts: seq<Attempt>, n: nat): seq<nat>
    requires n <= |attempts|
  {
    if n == 0 then [] else AllSequences(attempts, n - 1) + Sequences(attempts[n - 1])
  }

  /** Connection n renders something after the ones before it. */
  predicate Brings(v: View, attempts: seq<Attempt>, n: nat)
    requires n < |attempts|
  {
    var before := SeenAll(v, AllSequences(attempts, n));
    SeenAll(before, Sequences(attempts[n])).lines != before.lines
  }

  /** Which of the first n connections were fruitful, for output that stood at v before them. */
  function History(v: View, attempts: seq<Attempt>, n: nat): (history: seq<bool>)
    requires n <= |attempts|
    ensures |history| == n
  {
    if n == 0 then []
    else
      History(v, attempts, n - 1) + [Fruitful(EndOf(attempts[n - 1]), Brings(v, attempts, n - 1))]
  }

  /** The waits between the attempts of a history. */
  ghost function Waits(history: seq<bool>): seq<nat> {
    if history == [] then [] else Waits(history[..|history| - 1]) + [Backoff(Streak(history))]
  }

  /** As many fruitless attempts in a row as there may be. */
  predicate Spent(reconnect: int, history: seq<bool>) {
    0 <= reconnect <= Streak(history)
  }

  lemma HistorySnoc(history: seq<bool>, fruitful: bool)
    ensures (history + [fruitful])[..|history|] == history
    ensures Streak(history + [fruitful]) == if history == [] || fruitful then 0 else Streak(history) + 1
    ensures Waits(history + [fruitful]) == Waits(history) + [Backoff(Streak(history + [fruitful]))]
  {
  }

  /** What one finished connection decides; None goes on to reconnect. */
  function Decided(follow: bool, attempt: Attempt, end: StreamEnd): Option<Outcome> {
    if attempt.cancelled then Some(Stopped)
    else if end == Clean && !follow then Some(Finished)
    else if end != Clean && (end != Failed(Unavailable) || !follow) then Some(Fatal(end))
    else None
  }

  /** Each of the first n connections, its writes all working, led on to the next. */
  ghost predicate LeadOn(follow: bool, reconnect: int, v: View, attempts: seq<Attempt>, n: nat)
    requires n <= |attempts|
  {
    n == 0
    || (LeadOn(follow, reconnect, v, attempts, n - 1)
        && Decided(follow, attempts[n - 1], EndOf(attempts[n - 1])) == None
        && !attempts[n - 1].cancelledWaiting && !Spent(reconnect, History(v, attempts, n)))
  }

  /** How a run that made its last connection after n others ends, by what the connections are and
      whether a write of the last one failed: decided by it, out of attempts, or cancelled while
      waiting. */
  ghost predicate EndsWith(follow: bool, reconnect: int, v: View, attempts: seq<Attempt>, n: nat, end: StreamEnd,
                           outcome: Outcome, waits: seq<nat>)
    requires n < |attempts|
  {
    (end == CallbackFailed || end == EndOf(attempts[n]))
    && match Decided(follow, attempts[n], end)
       case Some(o) => outcome == o && waits == Waits(History(v, attempts, n))
       case None =>
         var history := History(v, attempts, n + 1);
         if Spent(reconnect, history) then outcome == Exhausted && waits == Waits(History(v, attempts, n))
         else attempts[n].cancelledWaiting && outcome == Stopped && waits == Waits(history)
  }

  /** Why a run that made its last connection ended: cancelled; not following, by a clean end or by
      whatever else ended it; following, by a failed write or an error other than an unavailable
      daemon. After any other end it reaches the pause, and ends there only out of attempts or
      cancelled. */
  ghost predicate Reason(follow: bool, reconnect: int, last: Attempt, end: StreamEnd, outcome: Outcome) {
    if last.cancelled then outcome == Stopped
    else if !follow then outcome == if end == Clean then Finished else Fatal(end)
    else
      match end
      case CallbackFailed => outcome == Fatal(CallbackFailed)
      case Failed(Internal) => outcome == Fatal(end)
      case Failed(SchemaMismatch) => outcome == Fatal(end)
      case _ => (outcome == Exhausted && reconnect >= 0) || (outcome == Stopped && last.cancelledWaiting)
  }

  /** A run goes on after a connection only when it follows and nobody cancelled it, and the connection
      ended cleanly or for lack of a daemon. */
  ghost predicate GoesOn(follow: bool, a: Attempt) {
    follow && !a.cancelled && !a.cancelledWaiting && (EndOf(a) == Clean || EndOf(a) == Failed(Unavailable))
  }

  lemma EndsForReason(follow: bool, reconnect: int, v: View, attempts: seq<Attempt>, n: nat, end: StreamEnd,
                      outcome: Outcome, waits: seq<nat>)
    requires n < |attempts| && EndsWith(follow, reconnect, v, attempts, n, end, outcome, waits)
    ensures Reason(follow, reconnect, attempts[n], end, outcome)
  {
  }

  lemma {:induction false} LeadingGoesOn(follow: bool, reconnect: int, v: View, attempts: seq<Attempt>, n: nat, i: nat)
    requires i < n <= |attempts| && LeadOn(follow, reconnect, v, attempts, n)
    ensures GoesOn(follow, attempts[i])
  {
    if i < n - 1 { LeadingGoesOn(follow, reconnect, v, attempts, n - 1, i); }
  }

  lemma LeadingGoOn(follow: bool, reconnect: int, v: View, attempts: seq<Attempt>, n: nat)
    requires n <= |attempts| && LeadOn(follow, reconnect, v, attempts, n)
    ensures forall i | 0 <= i < n :: GoesOn(follow, attempts[i])
  {
    forall i | 0 <= i < n
      ensures GoesOn(follow, attempts[i])
    {
      LeadingGoesOn(follow, reconnect, v, attempts, n, i);
    }
  }

  /** A refused connection finds no daemon; any other ends as its frames say. */
  lemma EndExactly(a: Attempt) returns (k: nat)
    ensures a.refused ==> EndOf(a) == Failed(Unavailable) && Sequences(a) == []
    ensures !a.refused ==>
      k == |Sequences(a)| <= |a.frames|
      && (forall i | 0 <= i < k :: Follows(a.frames, 0, i) && Sequences(a)[i] == a.frames[i].sequence)
      && if k == |a.frames| then EndOf(a) == Clean
         else !Follows(a.frames, 0, k) && EndOf(a) == Failed(CodeOf(a.frames[k]))
  {
    k := ReadExactly(a.frames, 0);
  }

  /** The waits: 100 ms after a fruitful connection and after the first, otherwise twice the wait before,
      up to 5 s. */
  lemma {:induction false} WaitsExactly(history: seq<bool>, i: nat)
    requires i < |history|
    ensures |Waits(history)| == |history|
    ensures Waits(history)[i] ==
            if i == 0 || history[i] then 100
            else if 2 * Waits(history)[i - 1] > 5000 then 5000 else 2 * Waits(history)[i - 1]
    decreases |history|
  {
    var n := |history| - 1;
    if n > 0 { WaitsExactly(history[..n], if i < n then i else n - 1); }
    assert i < n ==> history[..n][i] == history[i];
    if n > 0 && i == n && !history[n] { LastWait(history); }
  }

  lemma LastWait(history: seq<bool>)
    requires |history| > 1 && !history[|history| - 1]
    ensures var before := Waits(history[..|history| - 1]);
            before != [] && Backoff(Streak(history)) == Doubled(before[|before| - 1])
  {
  }

  /** The budget is used up exactly when the last connections, as many as it allows, were all fruitless,
      and there was one before them. */
  lemma {:induction false} BudgetExactly(reconnect: int, history: seq<bool>)
    ensures Spent(reconnect, history) && history != [] <==>
              0 <= reconnect < |history| && forall i | |history| - reconnect <= i < |history| :: !history[i]
  {
    if |history| > 1 && reconnect > 0 {
      var n := |history| - 1;
      BudgetExactly(reconnect - 1, history[..n]);
      assert forall i | 0 <= i < n :: history[..n][i] == history[i];
    }
  }

  /** A connection is fruitful exactly when it ended cleanly or brought an event above the position of
      the output then, or any event to an output that still waits for its first. */
  lemma FruitExactly(v: View, attempts: seq<Attempt>, n: nat)
    requires n < |attempts|
    ensures |History(v, attempts, n + 1)| == n + 1
    ensures var before := SeenAll(v, AllSequences(attempts, n));
            History(v, attempts, n + 1)[n] <==>
              EndOf(attempts[n]) == Clean || (before.live && Sequences(attempts[n]) != [])
              || exists k :: 0 <= k < |Sequences(attempts[n])| && Sequences(attempts[n])[k] > before.position
  {
    LinesGrow(SeenAll(v, AllSequences(attempts, n)), Sequences(attempts[n]));
  }

  lemma {:induction false} LinesGrow(v: View, sequences: seq<nat>)
    ensures |SeenAll(v, sequences).lines| >= |v.lines|
    ensures SeenAll(v, sequences).lines != v.lines <==>
              (v.live && sequences != []) || exists k :: 0 <= k < |sequences| && sequences[k] > v.position
    decreases |sequences|
  {
    if sequences != [] {
      var next := Seen(v, sequences[0]);
      LinesGrow(next, sequences[1..]);
      if k :| 0 < k < |sequences| && sequences[k] > v.position { assert sequences[1..][k - 1] == sequences[k]; }
      if k :| 0 <= k < |sequences| - 1 && sequences[1..][k] > v.position { assert sequences[k + 1] > v.position; }
    }
  }

  /** One connection, and whether it decides the run. */
  method Connect(f: Follower, follow: bool, attempt: Attempt)
    returns (decided: Option<Outcome>, fruitful: bool, ghost at: nat, ghost end: StreamEnd)
    requires f.Valid()
    modifies f
    ensures (end == CallbackFailed || end == EndOf(attempt)) && decided == Decided(follow, attempt, end)
    ensures if end == CallbackFailed then f.StoppedAt(old(f.delivered), attempt, at)
            else
              f.Valid() && f.delivered == old(f.delivered) + Sequences(attempt)
              && fruitful == Fruitful(end, f.Expected().lines != old(f.Expected()).lines)
  {
    f.hadEvent := false;
    var ended: StreamEnd;
    ended, at := f.Stream(attempt);
    end := ended;
    fruitful := Fruitful(ended, f.hadEvent);
    if attempt.cancelled { return Some(Stopped), fruitful, at, end; }
    if ended == Clean && !follow { return Some(Finished), fruitful, at, end; }
    if ended != Clean && ended != Failed(Unavailable) { return Some(Fatal(ended)), fruitful, at, end; }
    if !follow { return Some(Fatal(ended)), fruitful, at, end; }
    return None, fruitful, at, end;
  }

  /** The loop of a run after i connections that led on: what was delivered, the waits so far, and
      the counter and wait of the next failure. v is the output before the run and start what had
      been delivered before it. */
  ghost predicate Going(follow: bool, reconnect: int, v: View, start: seq<nat>, attempts: seq<Attempt>, i: nat,
                        delivered: seq<nat>, waits: seq<nat>, tries: nat, backoff: nat)
  {
    i <= |attempts| && LeadOn(follow, reconnect, v, attempts, i) && delivered == start + AllSequences(attempts, i)
    && Counts(History(v, attempts, i), waits, tries, backoff)
  }

  /** What the waits, the counter and the next wait are after a history. */
  ghost predicate Counts(history: seq<bool>, waits: seq<nat>, tries: nat, backoff: nat) {
    waits == Waits(history) && backoff == Backoff(tries) && tries == if history == [] then 0 else Streak(history) + 1
  }

  lemma GoingStarts(follow: bool, reconnect: int, v: View, start: seq<nat>, attempts: seq<Attempt>)
    ensures Going(follow, reconnect, v, start, attempts, 0, start, [], 0, INITIAL_BACKOFF)
  {
    assert start + [] == start;
  }

  /** Whether a connection was fruitful is what the history says of it. */
  lemma FruitfulNext(begin: View, start: seq<nat>, attempts: seq<Attempt>, i: nat, delivered: seq<nat>, fruitful: bool)
    requires i < |attempts| && delivered == start + AllSequences(attempts, i)
    requires var after := SeenAll(begin, delivered + Sequences(attempts[i]));
             fruitful == Fruitful(EndOf(attempts[i]), after.lines != SeenAll(begin, delivered).lines)
    ensures fruitful == Fruitful(EndOf(attempts[i]), Brings(SeenAll(begin, start), attempts, i))
    ensures start + AllSequences(attempts, i + 1) == delivered + Sequences(attempts[i])
  {
    var before := AllSequences(attempts, i);
    SeenConcat(begin, start, before);
    SeenConcat(begin, start + before, Sequences(attempts[i]));
    Associate(start, before, Sequences(attempts[i]));
  }

  /** After a connection that decided nothing: the budget is used up, or there is one more wait. A
      fruitful connection resets both. stop is the outcome when the run ends here. */
  method Pause(reconnect: int, cancelledWaiting: bool, fruitful: bool, tries: nat, backoff: nat)
    returns (stop: Option<Outcome>, waited: seq<nat>, tries': nat, backoff': nat)
    ensures Paused(reconnect, cancelledWaiting, fruitful, tries, backoff, stop, waited, tries', backoff')
  {
    tries', backoff' := tries, backoff;
    if fruitful { backoff', tries' := INITIAL_BACKOFF, 0; }
    if reconnect >= 0 && tries' >= reconnect { return Some(Exhausted), [], tries', backoff'; }
    tries' := tries' + 1;
    waited := [backoff'];
    if cancelledWaiting { return Some(Stopped), waited, tries', backoff'; }
    return None, waited, tries', Doubled(backoff');
  }

  ghost predicate Paused(reconnect: int, cancelledWaiting: bool, fruitful: bool, tries: nat, backoff: nat,
                         stop: Option<Outcome>, waited: seq<nat>, tries': nat, backoff': nat)
  {
    var failed, wait := if fruitful then 0 else tries, if fruitful then INITIAL_BACKOFF else backoff;
    if 0 <= reconnect <= failed then stop == Some(Exhausted) && waited == []
    else if cancelledWaiting then stop == Some(Stopped) && waited == [wait]
    else stop == None && waited == [wait] && tries' == failed + 1 && backoff' == Doubled(wait)
  }

  /** The counter after one more connection is the streak of the longer history. */
  lemma CountNext(history: seq<bool>, fruitful: bool, tries: nat)
    requires tries == if history == [] then 0 else Streak(history) + 1
    ensures var failed := if fruitful then 0 else tries;
            Streak(history + [fruitful]) == failed
            && Waits(history + [fruitful]) == Waits(history) + [Backoff(failed)]
  {
    HistorySnoc(history, fruitful);
  }

  lemma WaitNext(fruitful: bool, tries: nat)
    ensures var failed := if fruitful then 0 else tries;
            (if fruitful then INITIAL_BACKOFF else Backoff(tries)) == Backoff(failed)
            && Doubled(Backoff(failed)) == Backoff(failed + 1)
  {
  }

  /** The counter and the waits follow the history. */
  lemma PausedByHistory(history: seq<bool>, waits: seq<nat>, reconnect: int, cancelledWaiting: bool, fruitful: bool,
                        tries: nat, backoff: nat, stop: Option<Outcome>, waited: seq<nat>, tries': nat, backoff': nat)
    requires Counts(history, waits, tries, backoff)
    requires Paused(reconnect, cancelledWaiting, fruitful, tries, backoff, stop, waited, tries', backoff')
    ensures var longer := history + [fruitful];
            if Spent(reconnect, longer) then stop == Some(Exhausted) && waits + waited == waits
            else
              waits + waited == Waits(longer)
              && if cancelledWaiting then stop == Some(Stopped)
                 else stop == None && Counts(longer, waits + waited, tries', backoff')
  {
    var failed, wait := if fruitful then 0 else tries, if fruitful then INITIAL_BACKOFF else Backoff(tries);
    CountNext(history, fruitful, tries);
    WaitNext(fruitful, tries);
    if 0 <= reconnect <= failed {
      assert waits + [] == waits;
    } else {
      assert waited == [wait];
    }
  }

  /** A connection that decided nothing ends the run by the budget or in the wait, or the run goes
      on, as the history of the connections says. */
  lemma Settled(follow: bool, reconnect: int, v: View, start: seq<nat>, attempts: seq<Attempt>, i: nat,
                delivered: seq<nat>, waits: seq<nat>, tries: nat, backoff: nat, fruitful: bool,
                delivered': seq<nat>, stop: Option<Outcome>, waited: seq<nat>, tries': nat, backoff': nat)
    requires i < |attempts| && Decided(follow, attempts[i], EndOf(attempts[i])) == None
    requires Going(follow, reconnect, v, start, attempts, i, delivered, waits, tries, backoff)
    requires fruitful == Fruitful(EndOf(attempts[i]), Brings(v, attempts, i))
    requires start + AllSequences(attempts, i + 1) == delivered'
    requires Paused(reconnect, attempts[i].cancelledWaiting, fruitful, tries, backoff, stop, waited, tries', backoff')
    ensures match stop
            case Some(outcome) =>
              EndsWith(follow, reconnect, v, attempts, i, EndOf(attempts[i]), outcome, waits + waited)
            case None =>
              Going(follow, reconnect, v, start, attempts, i + 1, delivered', waits + waited, tries', backoff')
  {
    PausedByHistory(History(v, attempts, i), waits, reconnect, attempts[i].cancelledWaiting, fruitful, tries, backoff,
                    stop, waited, tries', backoff');
  }

  /** The pause after connection i, in the books of the run. */
  method PauseAfter(reconnect: int, attempt: Attempt, fruitful: bool, waits: seq<nat>, tries: nat, backoff: nat,
                    ghost follow: bool, ghost v: View, ghost start: seq<nat>, ghost attempts: seq<Attempt>,
                    ghost i: nat, ghost delivered: seq<nat>, ghost delivered': seq<nat>)
    returns (stop: Option<Outcome>, waits': seq<nat>, tries': nat, backoff': nat)
    requires i < |attempts| && attempt == attempts[i] && Decided(follow, attempt, EndOf(attempt)) == None
    requires Going(follow, reconnect, v, start, attempts, i, delivered, waits, tries, backoff)
    requires fruitful == Fruitful(EndOf(attempt), Brings(v, attempts, i))
    requires start + AllSequences(attempts, i + 1) == delivered'
    ensures match stop
            case Some(outcome) =>
              EndsWith(follow, reconnect, v, attempts, i, EndOf(attempt), outcome, waits')
            case None => Going(follow, reconnect, v, start, attempts, i + 1, delivered', waits', tries', backoff')
  {
    var waited;
    stop, waited, tries', backoff' := Pause(reconnect, attempt.cancelledWaiting, fruitful, tries, backoff);
    Settled(follow, reconnect, v, start, attempts, i, delivered, waits, tries, backoff, fruitful, delivered',
            stop, waited, tries', backoff');
    waits' := waits + waited;
  }

  /** One connection of a run, and the pause after it. stop is the outcome when the run ends here. */
  method Turn(f: Follower, follow: bool, reconnect: int, attempts: seq<Attempt>, i: nat, waits: seq<nat>,
              tries: nat, backoff: nat, ghost v: View, ghost start: seq<nat>)
    returns (stop: Option<Outcome>, waits': seq<nat>, tries': nat, backoff': nat, ghost end: StreamEnd, ghost at: nat)
    requires f.Valid() && i < |attempts| && v == SeenAll(f.Start(), start)
    requires Going(follow, reconnect, v, start, attempts, i, f.delivered, waits, tries, backoff)
    modifies f
    ensures match stop
            case Some(outcome) =>
              EndsWith(follow, reconnect, v, attempts, i, end, outcome, waits')
              && if end == CallbackFailed then f.StoppedAt(old(f.delivered), attempts[i], at)
                 else f.Valid() && f.delivered == old(f.delivered) + Sequences(attempts[i])
            case None =>
              f.Valid() && Going(follow, reconnect, v, start, attempts, i + 1, f.delivered, waits', tries', backoff')
  {
    ghost var delivered := f.delivered;
    var decided, fruitful;
    decided, fruitful, at, end := Connect(f, follow, attempts[i]);
    if decided.Some? { return decided, waits, tries, backoff, end, at; }
    FruitfulNext(f.Start(), start, attempts, i, delivered, fruitful);
    stop, waits', tries', backoff' :=
      PauseAfter(reconnect, attempts[i], fruitful, waits, tries, backoff,
                 follow, v, start, attempts, i, delivered, f.delivered);
  }

  /** Follows the daemon's events over any number of connections; when the list of attempts is
      used up the command is cancelled. reconnect is the budget, if there is one; n counts the
      connections before the last one and end says how that one ended. */
  method Run(f: Follower, follow: bool, reconnect: int, attempts: seq<Attempt>)
    returns (outcome: Outcome, waits: seq<nat>, ghost n: nat, ghost end: StreamEnd, ghost at: nat)
    requires f.Valid() && reconnect >= -1
    modifies f
    ensures n <= |attempts| && LeadOn(follow, reconnect, old(f.Expected()), attempts, n)
    ensures if n < |attempts| then
              EndsWith(follow, reconnect, old(f.Expected()), attempts, n, end, outcome, waits)
              && Reason(follow, reconnect, attempts[n], end, outcome)
            else outcome == Stopped && waits == Waits(History(old(f.Expected()), attempts, n))
    ensures forall i | 0 <= i < n :: GoesOn(follow, attempts[i])
    ensures var before := old(f.delivered) + AllSequences(attempts, n);
            if n == |attempts| then f.Valid() && f.delivered == before
            else if end == CallbackFailed then f.StoppedAt(before, attempts[n], at)
            else f.Valid() && f.delivered == before + Sequences(attempts[n])
  {
    ghost var v, start := f.Expected(), f.delivered;
    waits, n, end, at := [], 0, Clean, 0;
    var backoff, tries, stop := INITIAL_BACKOFF, 0, None;
    GoingStarts(follow, reconnect, v, start, attempts);
    for i := 0 to |attempts|
      invariant n == i && f.Valid()
      invariant Going(follow, reconnect, v, start, attempts, i, f.delivered, waits, tries, backoff)
    {
      stop, waits, tries, backoff, end, at := Turn(f, follow, reconnect, attempts, i, waits, tries, backoff, v, start);
      if stop.Some? {
        LeadingGoOn(follow, reconnect, v, attempts, n);
        EndsForReason(follow, reconnect, v, attempts, n, end, stop.value, waits);
        return stop.value, waits, n, end, at;
      }
      n := n + 1;
    }
    LeadingGoOn(follow, reconnect, v, attempts, n);
    return Stopped, waits, n, end, at;
  }
}
