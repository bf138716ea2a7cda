/** The incremental NDJSON scanner of internal/agent/opencode: bytes in any chunks, one fold over
    the lines. JSON decoding and the usage-limit phrases are parameters. */
module Scanner {
  import opened Text

  datatype Status = Running | Completed | Failed

  /** A decoded line; absent fields are empty. */
  datatype Wire = Wire(kind: string, sessionID: string, propertiesSessionID: string, reason: string,
                       stateStatus: string)

  datatype Event = Event(kind: string, sessionID: string, terminal: Option<Status>)

  /** The foreign parts: JSON decoding of one line, and whether it describes a usage limit. */
  datatype Codec = Codec(decode: string -> Option<Wire>, limited: string -> bool)

  function ParseLine(codec: Codec, line: string): Option<Event> {
    if TrimSpace(line) == "" then None
    else
      match codec.decode(line)
      case None => None
      case Some(w) =>
        if w.kind == "" then None
        else
          var id := if w.sessionID == "" then w.propertiesSessionID else w.sessionID;
          var terminal :=
            if w.kind == "step_finish" && w.reason == "stop" then Some(Completed)
            else if w.kind == "step_finish" && w.reason == "error" then Some(Failed)
            else if w.kind == "tool_use" && w.stateStatus == "error" then Some(Failed)
            else None;
          Some(Event(w.kind, id, terminal))
  }

  // ------------------------------------------------------------ lines

  /** The lines ended by a newline, without it. */
  function Complete(text: string): seq<string> {
    var n := IndexByte(text, '\n');
    if n == |text| then [] else [text[..n]] + Complete(text[n + 1..])
  }

  /** The text after the last newline. */
  function Rest(text: string): string {
    var n := IndexByte(text, '\n');
    if n == |text| then text else Rest(text[n + 1..])
  }

  /** Only the unfinished line of what came before matters to the lines that follow. */
  lemma {:induction false} CompleteConcat(a: string, b: string)
    ensures Complete(a + b) == Complete(a) + Complete(Rest(a) + b)
    ensures Rest(a + b) == Rest(Rest(a) + b)
    decreases |a|
  {
    var n := IndexByte(a, '\n');
    if n < |a| {
      assert (a + b)[n + 1..] == a[n + 1..] + b && (a + b)[..n] == a[..n];
      FirstLine(a + b, n);
      CompleteConcat(a[n + 1..], b);
      Associate([a[..n]], Complete(a[n + 1..]), Complete(Rest(a) + b));
    }
  }

  lemma FirstLine(text: string, n: nat)
    requires n < |text| && text[n] == '\n' && forall i | 0 <= i < n :: text[i] != '\n'
    ensures Complete(text) == [text[..n]] + Complete(text[n + 1..]) && Rest(text) == Rest(text[n + 1..])
  {
    IndexByteIs(text, '\n', n);
  }

  lemma {:induction false} RestIsUnfinished(text: string)
    ensures '\n' !in Rest(text)
  {
    var n := IndexByte(text, '\n');
    if n < |text| { RestIsUnfinished(text[n + 1..]); }
  }

  /** Lines put back together. */
  function Rejoined(lines: seq<string>, rest: string): string {
    if lines == [] then rest else lines[0] + (['\n'] + Rejoined(lines[1..], rest))
  }

  /** The finished lines and the rest are the text. */
  lemma {:induction false} CompleteRestIsText(text: string)
    ensures Rejoined(Complete(text), Rest(text)) == text
  {
    var n := IndexByte(text, '\n');
    if n < |text| {
      var line, rest := text[..n], text[n + 1..];
      CompleteRestIsText(rest);
      FirstLine(text, n);
      RejoinedCons(line, Complete(rest), Rest(rest));
      CutAt(text, n);
    }
  }

  lemma CutAt(text: string, n: nat)
    requires n < |text|
    ensures text == text[..n] + ([text[n]] + text[n + 1..])
  {
  }

  lemma RejoinedCons(line: string, lines: seq<string>, rest: string)
    ensures Rejoined([line] + lines, rest) == line + (['\n'] + Rejoined(lines, rest))
  {
    assert ([line] + lines)[1..] == lines;
  }

  // ------------------------------------------------------------ what the lines say

  datatype Facts = Facts(sessionID: string, status: Status, limited: bool)

  const START := Facts("", Running, false)

  function Consumed(codec: Codec, f: Facts, line: string): Facts {
    var g := if codec.limited(line) then f.(limited := true) else f;
    match ParseLine(codec, line)
    case None => g
    case Some(e) =>
      g.(sessionID := if g.sessionID == "" then e.sessionID else g.sessionID,
         status := if e.terminal == Some(Failed) then Failed
                   else if e.terminal == Some(Completed) && g.status != Failed then Completed
                   else g.status)
  }

  function ConsumedAll(codec: Codec, f: Facts, lines: seq<string>): Facts {
    if lines == [] then f else Consumed(codec, ConsumedAll(codec, f, lines[..|lines| - 1]), lines[|lines| - 1])
  }

  lemma ConsumedSnoc(codec: Codec, f: Facts, lines: seq<string>, line: string)
    ensures ConsumedAll(codec, f, lines + [line]) == Consumed(codec, ConsumedAll(codec, f, lines), line)
  {
    assert (lines + [line])[..|lines|] == lines;
  }

  lemma {:induction false} ConsumedConcat(codec: Codec, f: Facts, a: seq<string>, b: seq<string>)
    ensures ConsumedAll(codec, f, a + b) == ConsumedAll(codec, ConsumedAll(codec, f, a), b)
  {
    if b == [] {
      assert a + b == a;
    } else {
      ConsumedConcat(codec, f, a, b[..|b| - 1]);
      assert (a + b)[..|a + b| - 1] == a + b[..|b| - 1];
    }
  }

  /** Writing p after current consumes the lines that p finishes. */
  lemma WriteStep(codec: Codec, flushed: seq<string>, current: string, p: string)
    ensures Rest(current + p) == Rest(Rest(current) + p)
    ensures ConsumedAll(codec, START, flushed + Complete(current + p))
            == ConsumedAll(codec, ConsumedAll(codec, START, flushed + Complete(current)), Complete(Rest(current) + p))
  {
    CompleteConcat(current, p);
    ConsumedConcat(codec, START, flushed + Complete(current), Complete(Rest(current) + p));
    Associate(flushed, Complete(current), Complete(Rest(current) + p));
  }

  predicate Ends(codec: Codec, line: string, status: Status) {
    var e := ParseLine(codec, line);
    e.Some? && e.value.terminal == Some(status)
  }

  predicate Names(codec: Codec, line: string) {
    var e := ParseLine(codec, line);
    e.Some? && e.value.sessionID != ""
  }

  /** A line is an event exactly when it is not blank, can be decoded and has a kind. Its session is the
      one it names itself, or else the one among its properties. */
  lemma EventExactly(codec: Codec, line: string)
    ensures ParseLine(codec, line).Some? <==>
              TrimSpace(line) != "" && codec.decode(line).Some? && codec.decode(line).value.kind != ""
    ensures var w := codec.decode(line);
            ParseLine(codec, line).Some? ==>
              var e := ParseLine(codec, line).value;
              e.kind == w.value.kind
              && (w.value.sessionID != "" ==> e.sessionID == w.value.sessionID)
              && (w.value.sessionID == "" ==> e.sessionID == w.value.propertiesSessionID)
  {
  }

  /** It completes the session exactly when a step finished with a stop, and fails it exactly when a step
      finished, or a tool ended, with an error. */
  lemma TerminalExactly(codec: Codec, line: string, w: Wire)
    requires TrimSpace(line) != "" && codec.decode(line) == Some(w)
    ensures Ends(codec, line, Completed) <==> w.kind == "step_finish" && w.reason == "stop"
    ensures Ends(codec, line, Failed) <==>
              (w.kind == "step_finish" && w.reason == "error") || (w.kind == "tool_use" && w.stateStatus == "error")
    ensures !Ends(codec, line, Running)
  {
    assert "stop" != "error" && "step_finish" != "tool_use";
  }

  /** The status in one sentence: failed if any line fails, else completed if any completes. */
  lemma {:induction false} StatusMeans(codec: Codec, lines: seq<string>)
    ensures var s := ConsumedAll(codec, START, lines).status;
            (s == Failed <==> exists i :: 0 <= i < |lines| && Ends(codec, lines[i], Failed))
            && (s == Completed <==> s != Failed && exists i :: 0 <= i < |lines| && Ends(codec, lines[i], Completed))
  {
    if lines != [] {
      var init := lines[..|lines| - 1];
      StatusMeans(codec, init);
      assert forall i | 0 <= i < |init| :: init[i] == lines[i];
      var last := |lines| - 1;
      assert Ends(codec, lines[last], Failed) || !Ends(codec, lines[last], Failed);
    }
  }

  lemma {:induction false} LimitedMeans(codec: Codec, lines: seq<string>)
    ensures ConsumedAll(codec, START, lines).limited <==> exists i :: 0 <= i < |lines| && codec.limited(lines[i])
  {
    if lines != [] {
      var init := lines[..|lines| - 1];
      LimitedMeans(codec, init);
      assert forall i | 0 <= i < |init| :: init[i] == lines[i];
    }
  }

  /** The session id is the first non-empty one. */
  lemma {:induction false} SessionIDMeans(codec: Codec, lines: seq<string>)
    ensures var id := ConsumedAll(codec, START, lines).sessionID;
            if id == "" then forall i | 0 <= i < |lines| :: !Names(codec, lines[i])
            else
              exists i ::
                0 <= i < |lines| && Names(codec, lines[i]) && ParseLine(codec, lines[i]).value.sessionID == id
                             && forall j | 0 <= j < i :: !Names(codec, lines[j])
  {
    if lines != [] {
      var init, last := lines[..|lines| - 1], |lines| - 1;
      SessionIDMeans(codec, init);
      assert forall i | 0 <= i < |init| :: init[i] == lines[i];
      assert Names(codec, lines[last]) || !Names(codec, lines[last]);
    }
  }

  // ------------------------------------------------------------ the scanner

  class Scanner {
    const codec: Codec
    var pending: string
    var transcript: string
    var sessionID: string
    var status: Status
    var limited: bool

    // history: the lines of finished stretches, and the text since the last Flush
    ghost var flushed: seq<string>
    ghost var current: string

    ghost function Found(): Facts
      reads this
    {
      Facts(sessionID, status, limited)
    }

    /** The state is one fold over the lines, however the text was cut into writes. */
    ghost predicate Valid()
      reads this
    {
      pending == Rest(current) && Found() == ConsumedAll(codec, START, flushed + Complete(current))
    }

    constructor (codec: Codec)
      ensures Valid() && this.codec == codec && transcript == "" && current == "" && flushed == []
    {
      this.codec := codec;
      pending, transcript, sessionID, status, limited := "", "", "", Running, false;
      flushed, current := [], "";
    }

    method Write(p: string)
      requires Valid()
      modifies this
      ensures Valid() && transcript == old(transcript) + p && current == old(current) + p && flushed == old(flushed)
    {
      WriteStep(codec, flushed, current, p);
      transcript := transcript + p;
      pending := pending + p;
      ConsumeCompleteLines();
      current := current + p;
    }

    /** Consumes and removes every finished line of pending. */
    method ConsumeCompleteLines()
      modifies this`pending, this`sessionID, this`status, this`limited
      ensures pending == Rest(old(pending))
      ensures Found() == ConsumedAll(codec, old(Found()), Complete(old(pending)))
    {
      ghost var done: seq<string> := [];
      while true
        invariant Found() == ConsumedAll(codec, old(Found()), done)
        invariant done + Complete(pending) == Complete(old(pending)) && Rest(pending) == Rest(old(pending))
        decreases |pending|
      {
        var index := Newline(pending);
        if index == |pending| {
          IndexByteIs(pending, '\n', index);
          assert done + [] == done;
          return;
        }
        var line := pending[..index];
        FirstLine(pending, index);
        Associate(done, [line], Complete(pending[index + 1..]));
        ConsumedSnoc(codec, old(Found()), done, line);
        Consume(line);
        done := done + [line];
        pending := pending[index + 1..];
      }
    }

    method Newline(text: string) returns (index: nat)
      ensures index <= |text| && (index < |text| ==> text[index] == '\n')
      ensures forall i | 0 <= i < index :: text[i] != '\n'
    {
      index := 0;
      while index < |text| && text[index] != '\n'
        invariant index <= |text| && forall i | 0 <= i < index :: text[i] != '\n'
      {
        index := index + 1;
      }
    }

    method Consume(line: string)
      modifies this`sessionID, this`status, this`limited
      ensures Found() == Consumed(codec, old(Found()), line)
    {
      if codec.limited(line) { limited := true; }
      var event := ParseLine(codec, line);
      if event.None? { return; }
      if sessionID == "" && event.value.sessionID != "" { sessionID := event.value.sessionID; }
      match event.value.terminal
      case Some(Failed) => status := Failed;
      case Some(Completed) => if status != Failed { status := Completed; }
      case _ =>
    }

    /** Consumes the unfinished last line, if any. */
    method Flush()
      requires Valid()
      modifies this
      ensures Valid() && transcript == old(transcript) && current == ""
      ensures flushed == old(flushed) + Complete(old(current))
                         + if Rest(old(current)) == "" then [] else [Rest(old(current))]
    {
      ghost var lines := flushed + Complete(current);
      if |pending| != 0 {
        ConsumedSnoc(codec, START, lines, pending);
        Consume(pending);
        flushed := lines + [pending];
        pending := "";
      } else {
        flushed := lines;
        assert lines + [] == lines;
      }
      current := "";
      assert flushed + Complete("") == flushed;
    }
  }

  lemma ConcatPrefix(chunks: seq<string>, i: nat)
    requires i < |chunks|
    ensures Concat(chunks[..i + 1]) == Concat(chunks[..i]) + chunks[i]
  {
    ConcatSnoc(chunks[..i], chunks[i]);
    assert chunks[..i + 1] == chunks[..i] + [chunks[i]];
  }

  /** Every way of cutting a stream into writes, followed by a flush, ends in the same state: one
      fold over the lines of the stream. */
  method ScanChunks(codec: Codec, chunks: seq<string>) returns (transcript: string, pending: string, facts: Facts)
    ensures transcript == Concat(chunks) && pending == ""
    ensures facts == ConsumedAll(codec, START, AllLines(Concat(chunks)))
  {
    var s := new Scanner(codec);
    for i := 0 to |chunks|
      invariant s.Valid() && s.codec == codec && s.transcript == s.current == Concat(chunks[..i]) && s.flushed == []
      invariant fresh(s)
    {
      ConcatPrefix(chunks, i);
      s.Write(chunks[i]);
    }
    assert chunks[..|chunks|] == chunks;
    s.Flush();
    assert s.flushed + [] == s.flushed == AllLines(Concat(chunks));
    return s.transcript, s.pending, Facts(s.sessionID, s.status, s.limited);
  }

  /** The lines of a stream, the last one finished or not. */
  function AllLines(text: string): seq<string> {
    Complete(text) + if Rest(text) == "" then [] else [Rest(text)]
  }
}
