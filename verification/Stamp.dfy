/** The provenance trailers of internal/stamp: sanitizing values, printing one canonical
    block at the end of a commit message, and reading trailers back. */
module Stamp {
  import opened Text

  /** The trailer keys a reader recognises, in printing order. */
  datatype Vocabulary = Vocabulary(keys: seq<string>) {
    ghost predicate Valid() {
      (forall k | k in keys :: k != "" && forall i | 0 <= i < |k| :: k[i] != ':' && k[i] != '\n')
      && (forall i, j | 0 <= i < j < |keys| :: keys[i] != keys[j])
    }
  }

  datatype Trailer = Trailer(key: string, value: string)

  // ------------------------------------------------------------ values

  function Unbreak(s: string): string {
    if s == "" then ""
    else [if s[0] == '\r' || s[0] == '\n' || s[0] == ':' then ' ' else s[0]] + Unbreak(s[1..])
  }

  function Sanitize(value: string): string {
    Join(Fields(Unbreak(value)), " ")
  }

  lemma {:induction false} UnbreakShape(s: string)
    ensures forall i | 0 <= i < |Unbreak(s)| :: Unbreak(s)[i] != ':'
    ensures (forall i | 0 <= i < |s| :: s[i] !in {'\r', '\n', ':'}) ==> Unbreak(s) == s
  {
    if s != "" { UnbreakShape(s[1..]); }
  }

  /** A value that survives printing and reading: trimmed, on one line, without colons. */
  ghost predicate Printable(v: string) {
    TrimSpace(v) == v && forall c | c in v :: c != ':' && c != '\n' && c != '\r'
  }

  lemma SanitizePrintable(value: string)
    ensures Printable(Sanitize(value))
    ensures Sanitize(value) != "" ==> !IsSpace(Sanitize(value)[0])
  {
    var ws := Fields(Unbreak(value));
    var v := Join(ws, " ");
    UnbreakShape(value);
    FieldsAreWords(Unbreak(value));
    JoinShape(ws);
    TrimSpaceId(v);
    forall c | c in v
      ensures c != ':' && c != '\n' && c != '\r'
    {
      if c != ' ' {
        var i :| 0 <= i < |ws| && c in ws[i];
        var j :| 0 <= j < |ws[i]| && ws[i][j] == c;
        assert ws[i][j] in Unbreak(value) && IsWord(ws[i]);
      }
    }
  }

  /** Sanitizing is idempotent. */
  lemma SanitizeIdempotent(value: string)
    ensures Sanitize(Sanitize(value)) == Sanitize(value)
  {
    var v := Sanitize(value);
    SanitizePrintable(value);
    assert forall i | 0 <= i < |v| :: v[i] in v;
    UnbreakShape(v);
    FieldsAreWords(Unbreak(value));
    FieldsJoin(Fields(Unbreak(value)));
  }

  lemma {:induction false} UnbreakAt(s: string)
    ensures |Unbreak(s)| == |s|
    ensures forall i | 0 <= i < |s| :: Unbreak(s)[i] == if s[i] in {'\r', '\n', ':'} then ' ' else s[i]
  {
    if s != "" { UnbreakAt(s[1..]); }
  }

  /** Sanitizing keeps every word, in order, where line breaks and colons count as spaces, and puts single
      spaces between them. */
  lemma SanitizeExactly(value: string) returns (spaced: string)
    ensures |spaced| == |value|
    ensures forall i | 0 <= i < |value| :: spaced[i] == if value[i] in {'\r', '\n', ':'} then ' ' else value[i]
    ensures Sanitize(value) == Join(Fields(spaced), " ") && Fields(Sanitize(value)) == Fields(spaced)
  {
    spaced := Unbreak(value);
    UnbreakAt(value);
    FieldsAreWords(spaced);
    FieldsJoin(Fields(spaced));
  }

  /** The value the last usable trailer with this key carries; empty when there is none. */
  function LastValue(trailers: seq<Trailer>, key: string): string {
    if trailers == [] then ""
    else
      var last := trailers[|trailers| - 1];
      if last.key == key && Sanitize(last.value) != "" then Sanitize(last.value)
      else LastValue(trailers[..|trailers| - 1], key)
  }

  /** No trailer from position n on carries a value for this key. */
  ghost predicate NoneFrom(trailers: seq<Trailer>, key: string, n: nat) {
    forall i | n <= i < |trailers| && trailers[i].key == key :: Sanitize(trailers[i].value) == ""
  }

  /** The trailer at position n is the last one that carries a value for this key. */
  ghost predicate LastFor(trailers: seq<Trailer>, key: string, n: nat) {
    n < |trailers| && trailers[n].key == key && Sanitize(trailers[n].value) != "" && NoneFrom(trailers, key, n + 1)
  }

  lemma {:induction false} LastValueEmpty(trailers: seq<Trailer>, key: string)
    ensures LastValue(trailers, key) == "" <==> NoneFrom(trailers, key, 0)
  {
    if trailers != [] {
      var last := trailers[|trailers| - 1];
      if last.key != key || Sanitize(last.value) == "" { LastValueEmpty(trailers[..|trailers| - 1], key); }
    }
  }

  lemma {:induction false} LastValueIs(trailers: seq<Trailer>, key: string, n: nat)
    requires LastFor(trailers, key, n)
    ensures LastValue(trailers, key) == Sanitize(trailers[n].value)
  {
    if n < |trailers| - 1 {
      assert trailers[|trailers| - 1].key == key ==> Sanitize(trailers[|trailers| - 1].value) == "";
      LastValueIs(trailers[..|trailers| - 1], key, n);
    }
  }

  function Picked(trailers: seq<Trailer>, key: string): seq<Trailer> {
    var value := LastValue(trailers, key);
    if value == "" then [] else [Trailer(key, value)]
  }

  function Pick(trailers: seq<Trailer>, keys: seq<string>): seq<Trailer> {
    if keys == [] then [] else Picked(trailers, keys[0]) + Pick(trailers, keys[1..])
  }

  /** Known keys in fixed order, each with its last non-empty sanitized value. */
  function Canonical(v: Vocabulary, trailers: seq<Trailer>): seq<Trailer> {
    Pick(trailers, v.keys)
  }

  /** Key a stands somewhere before key b. */
  ghost predicate Before(keys: seq<string>, a: string, b: string) {
    exists i, j :: 0 <= i < j < |keys| && keys[i] == a && keys[j] == b
  }

  /** Trailers whose keys come in the order of these keys. */
  ghost predicate InOrder(trailers: seq<Trailer>, keys: seq<string>) {
    forall a, b | 0 <= a < b < |trailers| :: Before(keys, trailers[a].key, trailers[b].key)
  }

  lemma BeforeMore(key: string, keys: seq<string>, a: string, b: string)
    ensures Before(keys, a, b) ==> Before([key] + keys, a, b)
    ensures b in keys ==> Before([key] + keys, key, b)
  {
    var more := [key] + keys;
    if i, j :| 0 <= i < j < |keys| && keys[i] == a && keys[j] == b {
      assert more[i + 1] == a && more[j + 1] == b;
    }
    if j :| 0 <= j < |keys| && keys[j] == b {
      assert more[0] == key && more[j + 1] == b;
    }
  }

  lemma {:induction false} PickMembers(trailers: seq<Trailer>, keys: seq<string>, t: Trailer)
    ensures t in Pick(trailers, keys) <==> t.key in keys && t.value != "" && t.value == LastValue(trailers, t.key)
  {
    if keys != [] {
      var first := Picked(trailers, keys[0]);
      PickMembers(trailers, keys[1..], t);
      assert keys == [keys[0]] + keys[1..];
      assert t in Pick(trailers, keys) <==> t in first || t in Pick(trailers, keys[1..]);
      assert t in first <==> t.key == keys[0] && t.value != "" && t.value == LastValue(trailers, t.key) by {
        assert t == Trailer(t.key, t.value);
      }
    }
  }

  lemma InOrderStep(first: seq<Trailer>, rest: seq<Trailer>, key: string, keys: seq<string>)
    requires |first| <= 1 && (forall t | t in first :: t.key == key)
    requires InOrder(rest, keys) && forall t | t in rest :: t.key in keys
    ensures InOrder(first + rest, [key] + keys)
  {
    var all := first + rest;
    forall a, b | 0 <= a < b < |all|
      ensures Before([key] + keys, all[a].key, all[b].key)
    {
      assert all[b] == rest[b - |first|] && rest[b - |first|] in rest;
      if a < |first| {
        assert all[a] == first[a] && first[a] in first;
      } else {
        assert all[a] == rest[a - |first|];
        assert Before(keys, rest[a - |first|].key, rest[b - |first|].key);
      }
      BeforeMore(key, keys, all[a].key, all[b].key);
    }
  }

  lemma {:induction false} PickInOrder(trailers: seq<Trailer>, keys: seq<string>)
    ensures InOrder(Pick(trailers, keys), keys)
  {
    if keys != [] {
      var rest := Pick(trailers, keys[1..]);
      PickInOrder(trailers, keys[1..]);
      forall t | t in rest
        ensures t.key in keys[1..]
      {
        PickMembers(trailers, keys[1..], t);
      }
      InOrderStep(Picked(trailers, keys[0]), rest, keys[0], keys[1..]);
      assert [keys[0]] + keys[1..] == keys;
    }
  }

  /** The canonical trailers: for every known key that some trailer gives a value, the sanitized value of the
      last one that does, and no others, in the order of the keys. */
  lemma CanonicalExactly(v: Vocabulary, trailers: seq<Trailer>, t: Trailer)
    ensures InOrder(Canonical(v, trailers), v.keys)
    ensures t in Canonical(v, trailers)
            <==> t.key in v.keys
                 && exists n: nat :: LastFor(trailers, t.key, n) && t.value == Sanitize(trailers[n].value)
  {
    PickInOrder(trailers, v.keys);
    PickMembers(trailers, v.keys, t);
    LastValueEmpty(trailers, t.key);
    if n: nat :| LastFor(trailers, t.key, n) && t.value == Sanitize(trailers[n].value) {
      LastValueIs(trailers, t.key, n);
    }
    if !NoneFrom(trailers, t.key, 0) {
      var n := LastUsable(trailers, t.key);
      LastValueIs(trailers, t.key, n);
    }
  }

  lemma {:induction false} LastUsable(trailers: seq<Trailer>, key: string) returns (n: nat)
    requires !NoneFrom(trailers, key, 0)
    ensures LastFor(trailers, key, n)
  {
    n := |trailers| - 1;
    if trailers[n].key != key || Sanitize(trailers[n].value) == "" { n := LastUsable(trailers[..n], key); }
  }

  // ------------------------------------------------------------ one line

  /** strings.Cut at the first ": ". */
  function Cut(s: string): Option<(string, string)> {
    if |s| < 2 then None
    else if s[0] == ':' && s[1] == ' ' then Some(("", s[2..]))
    else match Cut(s[1..])
      case None => None
      case Some(p) => Some(([s[0]] + p.0, p.1))
  }

  ghost predicate EndsInReturn(s: string) {
    s != "" && s[|s| - 1] == '\r'
  }

  /** A line without its line ending: one newline, then one carriage return. */
  function Content(line: string): string {
    DropSuffix(DropSuffix(line, '\n'), '\r')
  }

  function LineTrailer(v: Vocabulary, line: string): Option<Trailer> {
    match Cut(Content(line))
    case Some((key, value)) => if key in v.keys then Some(Trailer(key, value)) else None
    case None => None
  }

  /** The line itself, unless it is a trailer. */
  function Kept(v: Vocabulary, line: string): seq<string> {
    if LineTrailer(v, line).Some? then [] else [line]
  }

  /** The trailer on this line, if any, with its value trimmed. */
  function Read(v: Vocabulary, line: string): seq<Trailer> {
    match LineTrailer(v, line)
    case Some(t) => [Trailer(t.key, TrimSpace(t.value))]
    case None => []
  }

  function FreeLines(v: Vocabulary, lines: seq<string>): seq<string> {
    if lines == [] then [] else Kept(v, lines[0]) + FreeLines(v, lines[1..])
  }

  function TrailersOf(v: Vocabulary, lines: seq<string>): seq<Trailer> {
    if lines == [] then [] else Read(v, lines[0]) + TrailersOf(v, lines[1..])
  }

  // ------------------------------------------------------------ the whole message

  /** The trailers a message carries, in message order. */
  function Parsed(v: Vocabulary, message: string): seq<Trailer> {
    TrailersOf(v, Lines(message))
  }

  /** The message without its trailer lines. */
  function Cleaned(v: Vocabulary, message: string): string {
    Concat(FreeLines(v, Lines(message)))
  }

  function DropBlank(lines: seq<string>): seq<string> {
    if lines != [] && Blank(Content(lines[|lines| - 1])) then DropBlank(lines[..|lines| - 1]) else lines
  }

  /** The text of the lines, without the ending of the last one. */
  function Unended(lines: seq<string>): string {
    if lines == [] then "" else Concat(lines[..|lines| - 1]) + Content(lines[|lines| - 1])
  }

  /** Drops trailing blank lines and the line ending of the last line kept. */
  function TrimmedLines(lines: seq<string>): string {
    Unended(DropBlank(lines))
  }

  function Trimmed(message: string): string {
    TrimmedLines(Lines(message))
  }

  function BlockLines(trailers: seq<Trailer>): seq<string> {
    if trailers == [] then []
    else [BlockLine(trailers[0])] + BlockLines(trailers[1..])
  }

  /** The free text a stamped message keeps. */
  function BodyText(v: Vocabulary, message: string): string {
    Trimmed(Cleaned(v, message))
  }

  /** The stamped message: kept text, a blank line, one canonical block. */
  function Applied(v: Vocabulary, message: string, trailers: seq<Trailer>): string {
    var block := Canonical(v, trailers);
    if block == [] then Cleaned(v, message)
    else
      var body := BodyText(v, message);
      (if body == "" then "" else body + "\n\n") + Concat(BlockLines(block))
  }

  // ------------------------------------------------------------ lemmas on keys and lines

  lemma {:induction false} CutKey(key: string, value: string)
    requires forall i | 0 <= i < |key| :: key[i] != ':'
    ensures Cut(key + ": " + value) == Some((key, value))
  {
    var s := key + ": " + value;
    if key == "" {
      assert s[2..] == value;
    } else {
      CutKey(key[1..], value);
      assert s[1..] == key[1..] + ": " + value;
      assert [key[0]] + key[1..] == key;
    }
  }

  /** Dropping a final carriage return never changes the key of a line. */
  lemma {:induction false} CutDropSuffix(s: string)
    requires s != "" && s[|s| - 1] == '\r'
    ensures var a, b := Cut(s), Cut(s[..|s| - 1]);
            (a.Some? <==> b.Some?) && (a.Some? ==> a.value.0 == b.value.0)
  {
    if |s| >= 2 && !(s[0] == ':' && s[1] == ' ') {
      CutDropSuffix(s[1..]);
      assert s[..|s| - 1][1..] == s[1..][..|s[1..]| - 1];
    }
  }

  lemma {:induction false} CutJoins(s: string)
    ensures Cut(s).Some? ==> s == Cut(s).value.0 + ": " + Cut(s).value.1
  {
    if |s| >= 2 && !(s[0] == ':' && s[1] == ' ') {
      CutJoins(s[1..]);
      if Cut(s).Some? {
        assert s == [s[0]] + s[1..];
        Associate([s[0]], Cut(s[1..]).value.0, ": ");
        Associate([s[0]], Cut(s[1..]).value.0 + ": ", Cut(s).value.1);
      }
    }
  }

  /** A line is a trailer exactly when, without its ending, it is a known key, a colon with a space, and the
      value. */
  lemma LineTrailerExactly(v: Vocabulary, line: string, t: Trailer)
    requires v.Valid()
    ensures LineTrailer(v, line) == Some(t) <==> t.key in v.keys && Content(line) == t.key + ": " + t.value
  {
    CutJoins(Content(line));
    if t.key in v.keys { CutKey(t.key, t.value); }
  }

  /** A line's ending is one newline, one carriage return, or both; without it no newline is left. */
  lemma ContentExactly(line: string)
    requires IsLine(line)
    ensures exists ending :: ending in {"", "\n", "\r", "\r\n"} && line == Content(line) + ending
                             && (ending in {"", "\n"} ==> !EndsInReturn(Content(line)))
    ensures '\n' !in Content(line)
  {
    var plain := DropSuffix(line, '\n');
    var first, second := if plain == line then "" else "\n", if Content(line) == plain then "" else "\r";
    assert line == plain + first && plain == Content(line) + second;
    Associate(Content(line), second, first);
    assert "\r" + "\n" == "\r\n" && second + first in {"" + "", "" + "\n", "\r" + "", "\r" + "\n"};
    assert line == Content(line) + (second + first);
  }

  lemma {:induction false} FreeLinesAppend(v: Vocabulary, a: seq<string>, b: seq<string>)
    ensures FreeLines(v, a + b) == FreeLines(v, a) + FreeLines(v, b)
  {
    if a == [] {
      assert a + b == b;
    } else {
      FreeLinesAppend(v, a[1..], b);
      FreeLinesCons(v, a[0], a[1..] + b);
      assert a + b == [a[0]] + (a[1..] + b);
      Associate(Kept(v, a[0]), FreeLines(v, a[1..]), FreeLines(v, b));
    }
  }

  lemma {:induction false} TrailersOfAppend(v: Vocabulary, a: seq<string>, b: seq<string>)
    ensures TrailersOf(v, a + b) == TrailersOf(v, a) + TrailersOf(v, b)
  {
    if a == [] {
      assert a + b == b;
    } else {
      TrailersOfAppend(v, a[1..], b);
      TrailersOfStep(v, a, b);
    }
  }

  lemma TrailersOfStep(v: Vocabulary, a: seq<string>, b: seq<string>)
    requires a != [] && TrailersOf(v, a[1..] + b) == TrailersOf(v, a[1..]) + TrailersOf(v, b)
    ensures TrailersOf(v, a + b) == TrailersOf(v, a) + TrailersOf(v, b)
  {
    var first := Read(v, a[0]);
    TrailersOfCons(v, a[0], a[1..] + b);
    Associate([a[0]], a[1..], b);
    assert [a[0]] + a[1..] == a;
    TrailersOfCons(v, a[0], a[1..]);
    Associate(first, TrailersOf(v, a[1..]), TrailersOf(v, b));
  }

  lemma TrailersOfCons(v: Vocabulary, line: string, rest: seq<string>)
    ensures TrailersOf(v, [line] + rest) == Read(v, line) + TrailersOf(v, rest)
  {
    assert ([line] + rest)[1..] == rest;
  }

  lemma FreeLinesCons(v: Vocabulary, line: string, rest: seq<string>)
    ensures FreeLines(v, [line] + rest) == Kept(v, line) + FreeLines(v, rest)
  {
    assert ([line] + rest)[1..] == rest;
  }

  ghost predicate AllFree(v: Vocabulary, lines: seq<string>) {
    forall i | 0 <= i < |lines| :: LineTrailer(v, lines[i]).None?
  }

  lemma {:induction false} AllFreeUnchanged(v: Vocabulary, lines: seq<string>)
    requires AllFree(v, lines)
    ensures FreeLines(v, lines) == lines && TrailersOf(v, lines) == []
  {
    if lines != [] {
      AllFreeUnchanged(v, lines[1..]);
      assert [lines[0]] + lines[1..] == lines;
    }
  }

  lemma {:induction false} FreeLinesShape(v: Vocabulary, lines: seq<string>)
    requires AreLines(lines)
    ensures AreLines(FreeLines(v, lines)) && AllFree(v, FreeLines(v, lines))
    ensures lines != [] && Terminated(lines[|lines| - 1])
            ==> forall i | 0 <= i < |FreeLines(v, lines)| :: Terminated(FreeLines(v, lines)[i])
  {
    if lines != [] {
      FreeLinesShape(v, lines[1..]);
      var rest := FreeLines(v, lines[1..]);
      if |lines| == 1 { assert lines[1..] == [] && rest == []; }
    }
  }

  /** Removing trailer lines leaves exactly the free lines. */
  lemma LinesOfCleaned(v: Vocabulary, message: string)
    ensures Lines(Cleaned(v, message)) == FreeLines(v, Lines(message))
    ensures AllFree(v, Lines(Cleaned(v, message)))
  {
    LinesShape(message);
    FreeLinesShape(v, Lines(message));
    LinesConcat(FreeLines(v, Lines(message)));
  }

  /** A trailer that can be printed and read back. */
  ghost predicate Good(v: Vocabulary, t: Trailer) {
    t.key in v.keys && t.value != "" && Printable(t.value)
  }

  function BlockLine(t: Trailer): string {
    t.key + ": " + t.value + "\n"
  }

  lemma BlockLineRead(v: Vocabulary, t: Trailer)
    requires v.Valid() && Good(v, t)
    ensures IsLine(BlockLine(t)) && Terminated(BlockLine(t))
    ensures Read(v, BlockLine(t)) == [t] && Kept(v, BlockLine(t)) == []
  {
    var text := t.key + ": " + t.value;
    assert BlockLine(t) == text + "\n";
    assert forall i | 0 <= i < |t.value| :: t.value[i] in t.value;
    assert DropSuffix(text + "\n", '\n') == text;
    assert text[|text| - 1] == t.value[|t.value| - 1] != '\r';
    assert Content(BlockLine(t)) == text;
    CutKey(t.key, t.value);
  }

  lemma BlockAdded(v: Vocabulary, line: string, lines: seq<string>)
    requires IsLine(line) && Terminated(line) && AreLines(lines)
    ensures AreLines([line] + lines) && TrailersOf(v, [line] + lines) == Read(v, line) + TrailersOf(v, lines)
    ensures FreeLines(v, [line] + lines) == Kept(v, line) + FreeLines(v, lines)
  {
    AreLinesCons(line, lines);
    TrailersOfCons(v, line, lines);
    FreeLinesCons(v, line, lines);
  }

  /** The block's lines are well formed and read back as its trailers. */
  ghost predicate ReadsBack(v: Vocabulary, trailers: seq<Trailer>) {
    AreLines(BlockLines(trailers)) && TrailersOf(v, BlockLines(trailers)) == trailers
    && FreeLines(v, BlockLines(trailers)) == []
  }

  lemma BlockStep(v: Vocabulary, t: Trailer, rest: seq<Trailer>)
    requires v.Valid() && Good(v, t) && ReadsBack(v, rest)
    ensures ReadsBack(v, [t] + rest)
  {
    BlockLineRead(v, t);
    BlockAdded(v, BlockLine(t), BlockLines(rest));
    assert ([t] + rest)[1..] == rest;
  }

  lemma {:induction false} BlockLinesShape(v: Vocabulary, trailers: seq<Trailer>)
    requires v.Valid() && forall t | t in trailers :: Good(v, t)
    ensures ReadsBack(v, trailers)
  {
    if trailers != [] {
      var rest := trailers[1..];
      assert trailers[0] in trailers && trailers == [trailers[0]] + rest;
      BlockLinesShape(v, rest);
      BlockStep(v, trailers[0], rest);
    }
  }

  lemma {:induction false} PickGood(v: Vocabulary, trailers: seq<Trailer>, keys: seq<string>)
    requires forall k | k in keys :: k in v.keys
    ensures forall t | t in Pick(trailers, keys) :: Good(v, t)
  {
    if keys != [] {
      assert forall k | k in keys[1..] :: k in keys;
      PickGood(v, trailers, keys[1..]);
      LastValuePrintable(trailers, keys[0]);
    }
  }

  lemma {:induction false} LastValuePrintable(trailers: seq<Trailer>, key: string)
    ensures Printable(LastValue(trailers, key))
  {
    if trailers != [] {
      SanitizePrintable(trailers[|trailers| - 1].value);
      LastValuePrintable(trailers[..|trailers| - 1], key);
    }
  }

  // ------------------------------------------------------------ the kept text

  ghost predicate EndsNonBlank(lines: seq<string>) {
    lines != [] && !Blank(Content(lines[|lines| - 1]))
  }

  lemma {:induction false} DropBlankShape(v: Vocabulary, lines: seq<string>)
    requires AreLines(lines) && AllFree(v, lines)
    ensures var k := DropBlank(lines);
            AreLines(k) && AllFree(v, k) && (k == [] || EndsNonBlank(k))
  {
    if lines != [] && Blank(Content(lines[|lines| - 1])) {
      DropBlankShape(v, lines[..|lines| - 1]);
    }
  }

  lemma ContentEnding(line: string) returns (ending: string)
    ensures line == Content(line) + ending && Blank(ending)
  {
    ending := line[|Content(line)|..];
  }

  /** The text was cut off in front of a line ending. */
  ghost predicate CutAtEnding(text: string, rest: string) {
    text == "" || "\r\n" <= rest || ("\n" <= rest && !EndsInReturn(text))
  }

  /** The text was cut off in front of a line ending or of what an unterminated line ends with. */
  ghost predicate CutAtEnd(text: string, rest: string) {
    CutAtEnding(text, rest) || rest == "\r" || (rest == "" && !EndsInReturn(text))
  }

  lemma CutLine(lines: seq<string>, rest: string)
    requires EndsNonBlank(lines) && IsLine(lines[|lines| - 1])
    requires lines[|lines| - 1] == Content(lines[|lines| - 1]) + rest
    ensures CutAtEnd(Unended(lines), rest)
    ensures Terminated(lines[|lines| - 1]) ==> CutAtEnding(Unended(lines), rest)
  {
    var line := lines[|lines| - 1];
    var c := Content(line);
    var text := Unended(lines);
    assert text[|text| - 1] == c[|c| - 1];
    ContentExactly(line);
    var ending :| ending in {"", "\n", "\r", "\r\n"} && line == c + ending
                  && (ending in {"", "\n"} ==> !EndsInReturn(c));
    assert rest == line[|c|..] == ending;
    assert Terminated(line) ==> line[|line| - 1] == '\n';
  }

  /** The kept text is a prefix; only white space follows it. */
  lemma {:induction false} TrimmedPrefix(lines: seq<string>) returns (rest: string)
    requires AreLines(lines)
    ensures Concat(lines) == TrimmedLines(lines) + rest && Blank(rest) && CutAtEnd(TrimmedLines(lines), rest)
    ensures AllTerminated(lines) ==> CutAtEnding(TrimmedLines(lines), rest)
  {
    rest := "";
    if lines != [] {
      var init, last := lines[..|lines| - 1], lines[|lines| - 1];
      var ending := ContentEnding(last);
      assert init + [last] == lines;
      ConcatSnoc(init, last);
      if Blank(Content(last)) {
        BlankConcat(Content(last), ending);
        var before := TrimmedPrefix(init);
        BlankConcat(before, last);
        Associate(TrimmedLines(init), before, last);
        rest := before + last;
      } else {
        rest := ending;
        Associate(Concat(init), Content(last), ending);
        CutLine(lines, ending);
      }
    }
  }

  lemma UnendedNonEmpty(lines: seq<string>)
    ensures EndsNonBlank(lines) ==> Unended(lines) != ""
  {
  }

  /** The kept lines with the last one ended by a bare newline, then one blank line. */
  function Padded(lines: seq<string>): seq<string>
    requires lines != []
  {
    lines[..|lines| - 1] + [Content(lines[|lines| - 1]) + "\n", "\n"]
  }

  /** Ending a free line with a bare newline leaves it free: at most one carriage return
      of its content is read as part of the ending. */
  lemma RelineFree(v: Vocabulary, line: string)
    requires IsLine(line) && LineTrailer(v, line).None?
    ensures var l := Content(line) + "\n";
            IsLine(l) && Terminated(l) && LineTrailer(v, l).None?
            && Content(l) == DropSuffix(Content(line), '\r')
  {
    var c := Content(line);
    assert DropSuffix(c + "\n", '\n') == c;
    if c != "" && c[|c| - 1] == '\r' { CutDropSuffix(c); }
  }

  lemma PaddedShape(v: Vocabulary, lines: seq<string>)
    requires AreLines(lines) && AllFree(v, lines) && lines != []
    ensures var p := Padded(lines);
            AreLines(p) && AllTerminated(p) && AllFree(v, p)
  {
    var last := lines[|lines| - 1];
    RelineFree(v, last);
    assert Content("\n") == "" && Cut("") == None;
  }

  lemma PaddedText(lines: seq<string>)
    requires lines != []
    ensures Concat(Padded(lines)) == Unended(lines) + "\n\n"
  {
    var init, c := lines[..|lines| - 1], Content(lines[|lines| - 1]);
    ConcatSnoc(init, c + "\n");
    ConcatSnoc(init + [c + "\n"], "\n");
    assert Padded(lines) == init + [c + "\n"] + ["\n"];
    assert Concat(init) + (c + "\n") + "\n" == Unended(lines) + "\n\n";
  }

  /** The lines whose text a stamped message keeps. */
  function KeptLines(v: Vocabulary, message: string): seq<string> {
    DropBlank(Lines(Cleaned(v, message)))
  }

  lemma KeptLinesShape(v: Vocabulary, message: string)
    ensures var k := KeptLines(v, message);
            AreLines(k) && AllFree(v, k) && (k == [] || EndsNonBlank(k))
    ensures BodyText(v, message) == Unended(KeptLines(v, message))
    ensures BodyText(v, message) == "" <==> KeptLines(v, message) == []
  {
    LinesOfCleaned(v, message);
    LinesShape(Cleaned(v, message));
    DropBlankShape(v, Lines(Cleaned(v, message)));
    UnendedNonEmpty(KeptLines(v, message));
  }

  /** The lines of a stamped message above its block. */
  function Heading(v: Vocabulary, message: string): seq<string> {
    var k := KeptLines(v, message);
    if k == [] then [] else Padded(k)
  }

  lemma HeadingShape(v: Vocabulary, message: string)
    ensures var h := Heading(v, message);
            AreLines(h) && AllTerminated(h) && AllFree(v, h)
            && Concat(h) == if BodyText(v, message) == "" then "" else BodyText(v, message) + "\n\n"
  {
    KeptLinesShape(v, message);
    var k := KeptLines(v, message);
    if k != [] {
      PaddedShape(v, k);
      PaddedText(k);
    }
  }

  lemma AppliedLines(v: Vocabulary, message: string, trailers: seq<Trailer>)
    requires v.Valid() && Canonical(v, trailers) != []
    ensures Lines(Applied(v, message, trailers)) == Heading(v, message) + BlockLines(Canonical(v, trailers))
  {
    var h, block := Heading(v, message), BlockLines(Canonical(v, trailers));
    PickGood(v, trailers, v.keys);
    BlockLinesShape(v, Canonical(v, trailers));
    HeadingShape(v, message);
    AreLinesAppend(h, block);
    ConcatAppend(h, block);
    LinesConcat(h + block);
  }

  lemma StampedLinesRead(v: Vocabulary, message: string, trailers: seq<Trailer>)
    requires v.Valid()
    ensures var ls := Heading(v, message) + BlockLines(Canonical(v, trailers));
            TrailersOf(v, ls) == Canonical(v, trailers) && FreeLines(v, ls) == Heading(v, message)
  {
    var h, block := Heading(v, message), BlockLines(Canonical(v, trailers));
    PickGood(v, trailers, v.keys);
    BlockLinesShape(v, Canonical(v, trailers));
    HeadingShape(v, message);
    FreeLinesAppend(v, h, block);
    TrailersOfAppend(v, h, block);
    AllFreeUnchanged(v, h);
  }

  // ------------------------------------------------------------ main results

  /** Round trip: reading a stamped message gives exactly the canonical trailers. */
  lemma ParseApply(v: Vocabulary, message: string, trailers: seq<Trailer>)
    requires v.Valid()
    ensures Parsed(v, Applied(v, message, trailers)) == Canonical(v, trailers)
  {
    if Canonical(v, trailers) == [] {
      LinesOfCleaned(v, message);
      AllFreeUnchanged(v, Lines(Cleaned(v, message)));
    } else {
      AppliedLines(v, message, trailers);
      StampedLinesRead(v, message, trailers);
    }
  }

  /** A stamped message ends with one line per canonical trailer; before them stands the kept text with one
      blank line, or nothing. */
  lemma StampedExactly(v: Vocabulary, message: string, trailers: seq<Trailer>)
    requires v.Valid() && Canonical(v, trailers) != []
    ensures var lines, block := Lines(Applied(v, message, trailers)), Canonical(v, trailers);
            |block| <= |lines|
            && (forall i | 0 <= i < |block| ::
                  lines[|lines| - |block| + i] == block[i].key + ": " + block[i].value + "\n")
            && Concat(lines[..|lines| - |block|])
               == if BodyText(v, message) == "" then "" else BodyText(v, message) + "\n\n"
  {
    var block := Canonical(v, trailers);
    AppliedLines(v, message, trailers);
    HeadingShape(v, message);
    BlockLinesAt(block);
    var lines := Lines(Applied(v, message, trailers));
    assert lines[..|lines| - |block|] == Heading(v, message);
  }

  lemma {:induction false} BlockLinesAt(trailers: seq<Trailer>)
    ensures |BlockLines(trailers)| == |trailers|
    ensures forall i | 0 <= i < |trailers| ::
              BlockLines(trailers)[i] == trailers[i].key + ": " + trailers[i].value + "\n"
  {
    if trailers != [] { BlockLinesAt(trailers[1..]); }
  }

  /** The text outside trailers: unchanged when there is nothing to stamp, otherwise the
      kept text followed by one blank line. */
  lemma ApplyKeepsBody(v: Vocabulary, message: string, trailers: seq<Trailer>)
    requires v.Valid()
    ensures Cleaned(v, Applied(v, message, trailers)) ==
            (if Canonical(v, trailers) == [] then Cleaned(v, message)
             else if BodyText(v, message) == "" then ""
             else BodyText(v, message) + "\n\n")
  {
    if Canonical(v, trailers) == [] {
      LinesOfCleaned(v, message);
      AllFreeUnchanged(v, Lines(Cleaned(v, message)));
    } else {
      AppliedLines(v, message, trailers);
      StampedLinesRead(v, message, trailers);
      HeadingShape(v, message);
    }
  }

  /** The kept text is the message without trailers, cut off at the end of its last line that is not blank. */
  lemma BodyTextIsPrefix(v: Vocabulary, message: string) returns (rest: string)
    ensures Cleaned(v, message) == BodyText(v, message) + rest && Blank(rest)
    ensures CutAtEnd(BodyText(v, message), rest)
    ensures BodyText(v, message) != "" ==>
              var lines := Lines(BodyText(v, message));
              lines != [] && !Blank(lines[|lines| - 1]) && !Terminated(lines[|lines| - 1])
  {
    LinesShape(Cleaned(v, message));
    rest := TrimmedPrefix(Lines(Cleaned(v, message)));
    KeptLinesShape(v, message);
    var k := KeptLines(v, message);
    if k != [] { UnendedLines(k); }
  }

  lemma UnendedLines(lines: seq<string>)
    requires AreLines(lines) && EndsNonBlank(lines)
    ensures Lines(Unended(lines)) == lines[..|lines| - 1] + [Content(lines[|lines| - 1])]
    ensures !Terminated(Content(lines[|lines| - 1]))
  {
    var init, c := lines[..|lines| - 1], Content(lines[|lines| - 1]);
    ContentExactly(lines[|lines| - 1]);
    assert forall i | 0 <= i < |c| :: c[i] in c;
    ConcatSnoc(init, c);
    AreLinesAppend(init, [c]);
    LinesConcat(init + [c]);
  }

  lemma DropReturnNonBlank(c: string)
    requires !Blank(c)
    ensures !Blank(DropSuffix(c, '\r'))
  {
    if c[|c| - 1] == '\r' {
      BlankConcat(c[..|c| - 1], "\r");
      assert c == c[..|c| - 1] + "\r";
    }
  }

  lemma DropBlankPadded(v: Vocabulary, lines: seq<string>)
    requires AreLines(lines) && AllFree(v, lines) && EndsNonBlank(lines)
    ensures DropBlank(Padded(lines)) == lines[..|lines| - 1] + [Content(lines[|lines| - 1]) + "\n"]
  {
    var p, c := Padded(lines), Content(lines[|lines| - 1]);
    RelineFree(v, lines[|lines| - 1]);
    DropReturnNonBlank(c);
    assert Content(p[|p| - 1]) == "";
    var q := lines[..|lines| - 1] + [c + "\n"];
    assert p[..|p| - 1] == q;
    assert Content(q[|q| - 1]) == DropSuffix(c, '\r');
  }

  /** Trimming padded lines strips one more carriage return, if there is one. */
  lemma TrimmedPadded(v: Vocabulary, lines: seq<string>)
    requires AreLines(lines) && AllFree(v, lines) && EndsNonBlank(lines)
    ensures TrimmedLines(Padded(lines)) == DropSuffix(Unended(lines), '\r')
  {
    var init, c := lines[..|lines| - 1], Content(lines[|lines| - 1]);
    DropBlankPadded(v, lines);
    RelineFree(v, lines[|lines| - 1]);
    UnendedSnoc(init, c);
    DropLast(Concat(init), c, '\r');
  }

  lemma UnendedSnoc(init: seq<string>, c: string)
    ensures Unended(init + [c + "\n"]) == Concat(init) + DropSuffix(c, '\r')
  {
    var q := init + [c + "\n"];
    assert q[..|q| - 1] == init && (c + "\n")[..|c|] == c;
  }

  lemma DropLast(a: string, c: string, end: char)
    requires c != ""
    ensures DropSuffix(a + c, end) == a + DropSuffix(c, end)
  {
  }

  lemma TrimmedTwice(v: Vocabulary, message: string)
    requires BodyText(v, message) != ""
    ensures Trimmed(BodyText(v, message) + "\n\n") == DropSuffix(BodyText(v, message), '\r')
  {
    KeptLinesShape(v, message);
    var k := KeptLines(v, message);
    PaddedShape(v, k);
    PaddedText(k);
    LinesConcat(Padded(k));
    TrimmedPadded(v, k);
  }

  /** Restamping forgets the first stamp, unless the kept text ends in a carriage return
      (its last line ended in two): then, and only then, the second pass strips one more. */
  lemma Restamp(v: Vocabulary, message: string, first: seq<Trailer>, second: seq<Trailer>)
    requires v.Valid() && Canonical(v, second) != []
    ensures Applied(v, Applied(v, message, first), second) == Applied(v, message, second)
            <==> Canonical(v, first) == [] || !EndsInReturn(BodyText(v, message))
  {
    var once := Applied(v, message, first);
    ApplyKeepsBody(v, message, first);
    if Canonical(v, first) != [] && BodyText(v, message) != "" {
      TrimmedTwice(v, message);
      if EndsInReturn(BodyText(v, message)) {
        assert |BodyText(v, once)| == |BodyText(v, message)| - 1;
        ShorterBody(v, once, message, second);
      }
    }
  }

  lemma ShorterBody(v: Vocabulary, shorter: string, message: string, trailers: seq<Trailer>)
    requires v.Valid() && Canonical(v, trailers) != [] && |BodyText(v, shorter)| < |BodyText(v, message)|
    ensures |Applied(v, shorter, trailers)| < |Applied(v, message, trailers)|
  {
  }

  lemma TwoReturns(v: Vocabulary)
    ensures BodyText(v, "x\r\r\n") == "x\r"
  {
    var m := "x\r\r\n";
    LinesConcat([m]);
    assert Concat([m]) == m;
    assert DropSuffix(m, '\n') == "x\r\r" && Content(m) == "x\r";
    assert Cut("x\r") == None by { assert "x\r"[1..] == "\r"; }
    AllFreeUnchanged(v, [m]);
    assert !IsSpace("x\r"[0]) && DropBlank([m]) == [m];
    assert [m][..0] == [];
  }

  lemma SanitizeT()
    ensures Sanitize("t") == "t"
  {
    var ws := ["t"];
    assert IsWord("t") && Join(ws, " ") == "t";
    FieldsJoin(ws);
    UnbreakShape("t");
  }

  /** The failing family is inhabited: a body line ending in two carriage returns. */
  lemma RestampCounterexample(v: Vocabulary)
    requires v.Valid() && v.keys != []
    ensures var t := [Trailer(v.keys[0], "t")];
            Applied(v, Applied(v, "x\r\r\n", t), t) != Applied(v, "x\r\r\n", t)
  {
    var t := [Trailer(v.keys[0], "t")];
    TwoReturns(v);
    SanitizeT();
    assert LastValue(t, v.keys[0]) == "t";
    Restamp(v, "x\r\r\n", t, t);
  }

  /** A message that stamping leaves alone already carries exactly the stamp. */
  lemma UnchangedIsStamped(v: Vocabulary, message: string, trailers: seq<Trailer>)
    requires v.Valid()
    requires Applied(v, message, trailers) == message
    ensures Parsed(v, message) == Canonical(v, trailers)
  {
    ParseApply(v, message, trailers);
  }

  // ------------------------------------------------------------ the loops

  /** A stretch without a newline before its last character is a line. */
  lemma LineCut(message: string, start: nat, end: nat)
    requires start < end <= |message| && forall i | start <= i < end - 1 :: message[i] != '\n'
    ensures IsLine(message[start..end]) && message[..start] + message[start..end] == message[..end]
    ensures Terminated(message[start..end]) <==> message[end - 1] == '\n'
    ensures end == |message| ==> message[start..end] == message[start..] && message[..end] == message
  {
  }

  lemma LineAdded(lines: seq<string>, done: string, line: string)
    requires AreLines(lines) && AllTerminated(lines) && Concat(lines) == done && IsLine(line)
    ensures AreLines(lines + [line]) && Concat(lines + [line]) == done + line
    ensures Terminated(line) ==> AllTerminated(lines + [line])
  {
    ConcatSnoc(lines, line);
    AreLinesAppend(lines, [line]);
  }

  method MessageLines(message: string) returns (lines: seq<string>)
    ensures lines == Lines(message)
  {
    lines := [];
    var start := 0;
    for index := 0 to |message|
      invariant 0 <= start <= index
      invariant forall i | start <= i < index :: message[i] != '\n'
      invariant AreLines(lines) && AllTerminated(lines) && Concat(lines) == message[..start]
    {
      if message[index] == '\n' {
        var line := message[start..index + 1];
        LineCut(message, start, index + 1);
        LineAdded(lines, message[..start], line);
        lines := lines + [line];
        start := index + 1;
      }
    }
    if start < |message| {
      var line := message[start..];
      LineCut(message, start, |message|);
      LineAdded(lines, message[..start], line);
      lines := lines + [line];
    }
    assert message[..|message|] == message;
    LinesConcat(lines);
  }

  method TrimTrailingBlankLines(message: string) returns (text: string)
    ensures text == Trimmed(message)
  {
    var lines := MessageLines(message);
    var last := |lines| - 1;
    assert lines[..|lines|] == lines;
    while last >= 0
      invariant -1 <= last < |lines|
      invariant DropBlank(lines) == DropBlank(lines[..last + 1])
    {
      var content := DropSuffix(DropSuffix(lines[last], '\n'), '\r');
      TrimSpaceEmpty(content);
      DropBlankStep(lines, last);
      if TrimSpace(content) != "" { break; }
      last := last - 1;
    }
    if last < 0 { return ""; }
    assert lines[..last + 1][..last] == lines[..last];
    text := Concat(lines[..last]) + DropSuffix(DropSuffix(lines[last], '\n'), '\r');
  }

  lemma DropBlankStep(lines: seq<string>, last: nat)
    requires last < |lines|
    ensures DropBlank(lines[..last + 1])
            == if Blank(Content(lines[last])) then DropBlank(lines[..last]) else lines[..last + 1]
  {
    assert lines[..last + 1][..last] == lines[..last];
  }

  lemma TrailersOfSnoc(v: Vocabulary, lines: seq<string>, n: nat)
    requires n < |lines|
    ensures TrailersOf(v, lines[..n + 1]) == TrailersOf(v, lines[..n]) + Read(v, lines[n])
    ensures FreeLines(v, lines[..n + 1]) == FreeLines(v, lines[..n]) + Kept(v, lines[n])
  {
    var last := [lines[n]];
    assert lines[..n + 1] == lines[..n] + last;
    FreeLinesAppend(v, lines[..n], last);
    TrailersOfAppend(v, lines[..n], last);
    OneLineRead(v, lines[n]);
  }

  lemma OneLineRead(v: Vocabulary, line: string)
    ensures TrailersOf(v, [line]) == Read(v, line) && FreeLines(v, [line]) == Kept(v, line)
  {
    TrailersOfCons(v, line, []);
    FreeLinesCons(v, line, []);
    assert [line] + [] == [line];
  }

  method Parse(v: Vocabulary, message: string) returns (trailers: seq<Trailer>)
    ensures trailers == Parsed(v, message)
  {
    trailers := [];
    var lines := MessageLines(message);
    for n := 0 to |lines|
      invariant trailers == TrailersOf(v, lines[..n])
    {
      TrailersOfSnoc(v, lines, n);
      match Cut(Content(lines[n]))
      case Some((key, value)) =>
        if key in v.keys { trailers := trailers + [Trailer(key, TrimSpace(value))]; }
      case None =>
    }
    assert lines[..|lines|] == lines;
  }

  lemma {:induction false} JoinedBlock(trailers: seq<Trailer>, texts: seq<string>)
    requires |texts| == |trailers| && trailers != []
    requires forall i | 0 <= i < |texts| :: texts[i] == trailers[i].key + ": " + trailers[i].value
    ensures Join(texts, "\n") + "\n" == Concat(BlockLines(trailers))
  {
    if |trailers| == 1 {
      assert trailers[1..] == [] && texts == [texts[0]];
      assert BlockLines(trailers) == [BlockLine(trailers[0])];
    } else {
      JoinedBlock(trailers[1..], texts[1..]);
      var rest := Join(texts[1..], "\n");
      assert Join(texts, "\n") + "\n" == (texts[0] + "\n") + (rest + "\n");
    }
  }

  /** The values a later loop prints: the last usable value of every known key. */
  method LastValues(v: Vocabulary, trailers: seq<Trailer>) returns (values: map<string, string>)
    ensures forall k | k in values :: k in v.keys && LastValue(trailers, k) == values[k] != ""
    ensures forall k | k in v.keys && k !in values :: LastValue(trailers, k) == ""
  {
    values := map[];
    for n := 0 to |trailers|
      invariant forall k | k in values :: k in v.keys && LastValue(trailers[..n], k) == values[k] != ""
      invariant forall k | k in v.keys && k !in values :: LastValue(trailers[..n], k) == ""
    {
      assert trailers[..n + 1][..n] == trailers[..n];
      if trailers[n].key in v.keys {
        var value := Sanitize(trailers[n].value);
        if value != "" { values := values[trailers[n].key := value]; }
      }
    }
    assert trailers[..|trailers|] == trailers;
  }

  lemma {:induction false} PickSnoc(trailers: seq<Trailer>, keys: seq<string>, n: nat)
    requires n < |keys|
    ensures Pick(trailers, keys[..n + 1]) == Pick(trailers, keys[..n])
            + (var value := LastValue(trailers, keys[n]); if value == "" then [] else [Trailer(keys[n], value)])
  {
    if n == 0 {
      assert keys[..1][1..] == [] && keys[..0] == [];
    } else {
      PickSnoc(trailers, keys[1..], n - 1);
      PickCons(trailers, keys, n + 1);
      PickCons(trailers, keys, n);
      Associate(Picked(trailers, keys[0]), Pick(trailers, keys[1..][..n - 1]), Picked(trailers, keys[n]));
    }
  }

  lemma PickCons(trailers: seq<Trailer>, keys: seq<string>, n: nat)
    requires 0 < n <= |keys|
    ensures Pick(trailers, keys[..n]) == Picked(trailers, keys[0]) + Pick(trailers, keys[1..][..n - 1])
  {
    assert keys[..n][1..] == keys[1..][..n - 1];
  }

  method FreeText(v: Vocabulary, message: string) returns (cleaned: string)
    ensures cleaned == Cleaned(v, message)
  {
    var body: seq<string> := [];
    var lines := MessageLines(message);
    for n := 0 to |lines|
      invariant body == FreeLines(v, lines[..n])
    {
      TrailersOfSnoc(v, lines, n);
      var cut := Cut(Content(lines[n]));
      if cut.Some? && cut.value.0 in v.keys { continue; }
      body := body + [lines[n]];
    }
    assert lines[..|lines|] == lines;
    cleaned := Concat(body);
  }

  method PrintBlock(v: Vocabulary, trailers: seq<Trailer>, values: map<string, string>) returns (block: string)
    requires forall k | k in values :: k in v.keys && LastValue(trailers, k) == values[k] != ""
    requires forall k | k in v.keys && k !in values :: LastValue(trailers, k) == ""
    requires Canonical(v, trailers) != []
    ensures block == Concat(BlockLines(Canonical(v, trailers)))
  {
    var texts: seq<string> := [];
    ghost var picked: seq<Trailer> := [];
    for n := 0 to |v.keys|
      invariant picked == Pick(trailers, v.keys[..n]) && |texts| == |picked|
      invariant forall i | 0 <= i < |texts| :: texts[i] == picked[i].key + ": " + picked[i].value
    {
      PickSnoc(trailers, v.keys, n);
      var key := v.keys[n];
      if key in values && values[key] != "" {
        texts := texts + [key + ": " + values[key]];
        picked := picked + [Trailer(key, values[key])];
      }
    }
    assert v.keys[..|v.keys|] == v.keys;
    JoinedBlock(picked, texts);
    block := Join(texts, "\n") + "\n";
  }

  method Apply(v: Vocabulary, message: string, trailers: seq<Trailer>) returns (stamped: string)
    ensures stamped == Applied(v, message, trailers)
  {
    var cleaned := FreeText(v, message);
    if |trailers| == 0 {
      NothingPicked(trailers, v.keys);
      return cleaned;
    }
    var values := LastValues(v, trailers);
    if |values| == 0 {
      NothingPicked(trailers, v.keys);
      return cleaned;
    }
    var bodyText := TrimTrailingBlankLines(cleaned);
    var key :| key in values;
    var n :| 0 <= n < |v.keys| && v.keys[n] == key;
    PickMember(trailers, v.keys, n);
    var block := PrintBlock(v, trailers, values);
    if bodyText == "" {
      assert "" + block == block;
      return block;
    }
    return bodyText + "\n\n" + block;
  }

  lemma {:induction false} NothingPicked(trailers: seq<Trailer>, keys: seq<string>)
    requires forall k | k in keys :: LastValue(trailers, k) == ""
    ensures Pick(trailers, keys) == []
  {
    if keys != [] {
      assert forall k | k in keys[1..] :: k in keys;
      NothingPicked(trailers, keys[1..]);
    }
  }

  lemma {:induction false} PickMember(trailers: seq<Trailer>, keys: seq<string>, n: nat)
    requires n < |keys| && LastValue(trailers, keys[n]) != ""
    ensures Pick(trailers, keys) != []
  {
    if n > 0 { PickMember(trailers, keys[1..], n - 1); }
  }
}
