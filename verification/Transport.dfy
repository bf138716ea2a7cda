/** The subscription of internal/tui/transport: events with notices about gaps, one connection,
    one cursor. */
module Transport {
  import opened Text
  import opened Client
  import opened Tiling

  const MAX_SEQUENCE: nat := 0xFFFF_FFFF_FFFF_FFFF

  datatype Kind = Miss | Gap | EndOfStream | NotAvailable | OtherSchema

  /** What the subscriber receives: events on one channel, notices on another. */
  datatype Output = Delivery(sequence: nat) | Notice(kind: Kind, cursor: nat, from: nat, through: nat)

  function NextSequence(cursor: nat): Option<nat> {
    if cursor == MAX_SEQUENCE then None else Some(cursor + 1)
  }

  /** Malformed and repeated frames invalidate the history like a gap does. */
  function TerminalNotice(cursor: nat, end: StreamEnd): Output {
    match end
    case Clean => Notice(EndOfStream, cursor, 0, 0)
    case Failed(SchemaMismatch) => Notice(OtherSchema, cursor, 0, 0)
    case Failed(Internal) => Notice(Gap, cursor, 0, 0)
    case _ => Notice(NotAvailable, cursor, 0, 0)
  }

  /** The last notice, for every way a connection can end: the end of the stream when all frames follow
      one another; otherwise the first frame that does not decides, an event out of order like a gap, a
      foreign schema as such, anything else as an unavailable daemon. */
  lemma TerminalExactly(frames: seq<Frame>, cursor: nat) returns (k: nat)
    ensures k <= |frames| && (forall i | 0 <= i < k :: Follows(frames, 0, i))
    ensures var kind := if k == |frames| then EndOfStream
                        else if frames[k].Event? then Gap
                        else if frames[k] == WrongSchema then OtherSchema
                        else NotAvailable;
            TerminalNotice(cursor, Ended(frames, 0)) == Notice(kind, cursor, 0, 0)
    ensures k < |frames| ==> !Follows(frames, 0, k)
  {
    k := ReadExactly(frames, 0);
  }

  // ------------------------------------------------------------ what the subscriber should receive

  datatype Watch = Watch(highest: nat, started: bool, outputs: seq<Output>)

  function Before(w: Watch, sequence: nat): seq<Output> {
    match NextSequence(w.highest)
    case Some(expected) =>
      if sequence > expected then [Notice(if w.started then Gap else Miss, sequence, expected, sequence - 1)] else []
    case None => []
  }

  function Watched(w: Watch, sequence: nat): Watch {
    Watch(sequence, true, w.outputs + Before(w, sequence) + [Delivery(sequence)])
  }

  /** A notice goes before an event exactly when sequences are missing in between; it names them, the
      event as the new cursor, and a miss when nothing had arrived before. */
  lemma NoticeExactly(w: Watch, sequence: nat)
    requires w.highest < sequence <= MAX_SEQUENCE
    ensures Before(w, sequence) ==
            if sequence == w.highest + 1 then []
            else [Notice(if w.started then Gap else Miss, sequence, w.highest + 1, sequence - 1)]
  {
  }

  function WatchedAll(w: Watch, sequences: seq<nat>): Watch
    decreases |sequences|
  {
    if sequences == [] then w else WatchedAll(Watched(w, sequences[0]), sequences[1..])
  }

  lemma {:induction false} WatchedSnoc(w: Watch, sequences: seq<nat>, n: nat)
    ensures WatchedAll(w, sequences + [n]) == Watched(WatchedAll(w, sequences), n)
    decreases |sequences|
  {
    if sequences == [] {
      assert WatchedAll(Watched(w, n), []) == Watched(w, n);
    } else {
      WatchedSnoc(Watched(w, sequences[0]), sequences[1..], n);
      assert (sequences + [n])[1..] == sequences[1..] + [n];
    }
  }

  function LineOf(o: Output): Line {
    match o case Delivery(n) => Rendered(n) case Notice(_, _, from, through) => Missed(from, through)
  }

  function Lines(outputs: seq<Output>): seq<Line> {
    seq(|outputs|, i requires 0 <= i < |outputs| => LineOf(outputs[i]))
  }

  lemma LinesSnoc(outputs: seq<Output>, o: Output)
    ensures Lines(outputs + [o]) == Lines(outputs) + [LineOf(o)]
  {
  }

  lemma WatchedTiles(w: Watch, since: nat, n: nat)
    requires Tiles(Lines(w.outputs), since, w.highest) && w.highest < n <= MAX_SEQUENCE
    ensures Tiles(Lines(Watched(w, n).outputs), since, n)
  {
    if n > w.highest + 1 {
      var notice := Before(w, n)[0];
      LinesSnoc(w.outputs, notice);
      TilesSnoc(Lines(w.outputs), since, w.highest, LineOf(notice));
      LinesSnoc(w.outputs + [notice], Delivery(n));
      TilesSnoc(Lines(w.outputs + [notice]), since, n - 1, Rendered(n));
    } else {
      LinesSnoc(w.outputs, Delivery(n));
      TilesSnoc(Lines(w.outputs), since, w.highest, Rendered(n));
      assert w.outputs + [] == w.outputs;
    }
  }

  ghost predicate Bounded(sequences: seq<nat>) {
    forall i | 0 <= i < |sequences| :: sequences[i] <= MAX_SEQUENCE
  }

  lemma {:induction false} AllTile(w: Watch, since: nat, sequences: seq<nat>)
    requires Tiles(Lines(w.outputs), since, w.highest) && Ascending(w.highest, sequences) && Bounded(sequences)
    ensures Tiles(Lines(WatchedAll(w, sequences).outputs), since, WatchedAll(w, sequences).highest)
    decreases |sequences|
  {
    if sequences != [] {
      WatchedTiles(w, since, sequences[0]);
      AllTile(Watched(w, sequences[0]), since, sequences[1..]);
    }
  }

  lemma {:induction false} OutputsGrow(w: Watch, sequences: seq<nat>)
    ensures w.outputs <= WatchedAll(w, sequences).outputs
    decreases |sequences|
  {
    if sequences != [] { OutputsGrow(Watched(w, sequences[0]), sequences[1..]); }
  }

  /** Events and notices tile exactly the sequences from since to the cursor, if and only if the
      daemon sends nothing at or below since. The client lets only increasing sequences through. */
  lemma CoverExactlyWhenAbove(since: nat, frames: seq<Frame>)
    requires Bounded(Delivered(frames, 0)) && since <= MAX_SEQUENCE
    ensures var sequences := Delivered(frames, 0);
            var w := WatchedAll(Watch(since, false, []), sequences);
            Tiles(Lines(w.outputs), since, w.highest) <==> sequences == [] || since < sequences[0]
  {
    var sequences, start := Delivered(frames, 0), Watch(since, false, []);
    DeliveredAscends(frames, 0);
    assert Lines([]) == [];
    if sequences == [] || since < sequences[0] {
      AllTile(start, since, sequences);
    } else {
      var w := WatchedAll(start, sequences);
      var first := Watched(start, sequences[0]);
      assert first.outputs == [Delivery(sequences[0])];
      OutputsGrow(first, sequences[1..]);
      assert Lines(w.outputs)[0] == Rendered(sequences[0]);
      if Tiles(Lines(w.outputs), since, w.highest) { TilesAscend(Lines(w.outputs), since, w.highest, 0); }
    }
  }

  /** For instance event 3 after position 5 is delivered below the stretch. */
  lemma BelowPositionCounterexample()
    ensures Delivered([Event(3)], 0) == [3]
    ensures var w := WatchedAll(Watch(5, false, []), [3]); !Tiles(Lines(w.outputs), 5, w.highest)
  {
    assert [Event(3)][1..] == [] && Delivered([Event(3)], 0) == [3];
    CoverExactlyWhenAbove(5, [Event(3)]);
  }

  /** A gap before the first event is a miss, any later one a gap. */
  lemma {:induction false} MissOnlyFirst(w: Watch, sequences: seq<nat>, k: nat)
    requires w.started && |w.outputs| <= k < |WatchedAll(w, sequences).outputs|
    ensures WatchedAll(w, sequences).outputs[k].Notice? ==> WatchedAll(w, sequences).outputs[k].kind == Gap
    decreases |sequences|
  {
    if sequences != [] {
      var next := Watched(w, sequences[0]);
      OutputsGrow(next, sequences[1..]);
      if k >= |next.outputs| { MissOnlyFirst(next, sequences[1..], k); }
    }
  }

  // ------------------------------------------------------------ the subscription

  /** What the first i frames delivered, and that the rest of the frames delivers the rest. */
  ghost predicate Reading(delivered: seq<nat>, frames: seq<Frame>, i: nat, last: nat) {
    i <= |frames| && delivered + Delivered(frames[i..], last) == Delivered(frames, 0)
    && Ended(frames[i..], last) == Ended(frames, 0)
  }

  lemma ReadFrame(delivered: seq<nat>, frames: seq<Frame>, i: nat, last: nat)
    requires i < |frames| && Reading(delivered, frames, i, last)
    ensures match Judge(frames[i], last)
            case Refuse(code) => delivered == Delivered(frames, 0) && Ended(frames, 0) == Failed(code)
            case Deliver(sequence) => Reading(delivered + [sequence], frames, i + 1, sequence)
  {
    var rest := frames[i..];
    assert rest[0] == frames[i] && rest[1..] == frames[i + 1..];
    match Judge(frames[i], last)
    case Refuse(code) => assert delivered + [] == delivered;
    case Deliver(sequence) => Associate(delivered, [sequence], Delivered(rest[1..], sequence));
  }

  /** The state of one subscription. */
  class Subscription {
    var highest: nat
    var started: bool
    var outputs: seq<Output>
    const since: nat
    ghost var delivered: seq<nat>

    ghost predicate Valid()
      reads this
    {
      Watch(highest, started, outputs) == WatchedAll(Watch(since, false, []), delivered)
    }

    constructor (since: nat)
      ensures Valid() && this.since == highest == since && delivered == [] && outputs == []
    {
      highest, this.since, started, outputs, delivered := since, since, false, [], [];
    }

    /** Hands one output to the subscriber; fails only when the subscription is cancelled. */
    method Send(o: Output) returns (ok: bool)
      modifies this`outputs
      ensures outputs == if ok then old(outputs) + [o] else old(outputs)
    {
      ok := *;
      if ok { outputs := outputs + [o]; }
    }

    /** On cancellation at most the notice before the event went out. */
    method OnEvent(sequence: nat) returns (ok: bool)
      requires Valid()
      modifies this
      ensures ok ==> Valid() && delivered == old(delivered) + [sequence]
      ensures !ok ==> delivered == old(delivered) && highest == old(highest) && started == old(started)
      ensures !ok ==> old(outputs) <= outputs <= old(outputs) + Before(old(Watch(highest, started, outputs)), sequence)
    {
      ghost var w := Watch(highest, started, outputs);
      WatchedSnoc(Watch(since, false, []), delivered, sequence);
      var expected := NextSequence(highest);
      if expected.Some? && sequence > expected.value {
        ok := Send(Notice(if started then Gap else Miss, sequence, expected.value, sequence - 1));
        if !ok { return; }
      } else {
        assert outputs + Before(w, sequence) == outputs;
      }
      ok := Send(Delivery(sequence));
      if !ok { return; }
      highest, started := sequence, true;
      delivered := delivered + [sequence];
    }

    /** Reads the connection; last is the highest sequence the client accepted. */
    method Stream(frames: seq<Frame>) returns (last: nat, end: StreamEnd)
      requires Valid() && delivered == []
      modifies this
      ensures end != CallbackFailed ==> Valid() && delivered == Delivered(frames, 0) && end == Ended(frames, 0)
      ensures end != CallbackFailed ==> last == if delivered == [] then 0 else delivered[|delivered| - 1]
    {
      last := 0;
      for i := 0 to |frames|
        invariant Valid() && last == if delivered == [] then 0 else delivered[|delivered| - 1]
        invariant Reading(delivered, frames, i, last)
      {
        ReadFrame(delivered, frames, i, last);
        match Judge(frames[i], last)
        case Refuse(code) => return last, Failed(code);
        case Deliver(sequence) =>
          last := sequence;
          var ok := OnEvent(sequence);
          if !ok { return last, CallbackFailed; }
      }
      assert delivered + [] == delivered;
      return last, Clean;
    }

    /** The whole life of a subscription that is not cancelled: every output, then one notice
        about the end, with the cursor at the last event. */
    method Run(frames: seq<Frame>) returns (cancelled: bool)
      requires Valid() && delivered == []
      modifies this
      ensures !cancelled ==>
        var w := WatchedAll(Watch(since, false, []), Delivered(frames, 0));
        highest == w.highest && outputs == w.outputs + [TerminalNotice(w.highest, Ended(frames, 0))]
    {
      var last, end := Stream(frames);
      if last != 0 || since == 0 { highest := last; }
      var stopped := *;
      if stopped || end == CallbackFailed { return true; }
      LastIsHighest(Watch(since, false, []), delivered);
      var ok := Send(TerminalNotice(highest, end));
      return !ok;
    }
  }

  lemma {:induction false} LastIsHighest(w: Watch, sequences: seq<nat>)
    ensures WatchedAll(w, sequences).highest == if sequences == [] then w.highest else sequences[|sequences| - 1]
    decreases |sequences|
  {
    if sequences != [] { LastIsHighest(Watched(w, sequences[0]), sequences[1..]); }
  }
}
