/** The append-only trace log of internal/testenv. Quoting is a parameter. */
module Trace {
  import opened Text
  import opened Decimal

  /** One recorded invocation. */
  datatype Entry = Entry(number: int, dir: string, argv: seq<string>)

  /** strconv.Quote and strconv.Unquote. */
  datatype Quoting = Quoting(quote: string -> string, unquote: string -> Option<string>) {
    /** Quoted text is read back and holds neither a tab nor a newline. */
    ghost predicate Lawful() {
      forall s: string :: unquote(quote(s)) == Some(s) && '\t' !in quote(s) && '\n' !in quote(s)
    }
  }

  // ------------------------------------------------------------ splitting

  /** strings.Split. */
  function Split(s: string, c: char): seq<string> {
    var n := IndexByte(s, c);
    if n == |s| then [s] else [s[..n]] + Split(s[n + 1..], c)
  }

  lemma {:induction false} SplitJoin(fields: seq<string>, c: char)
    requires fields != [] && forall i | 0 <= i < |fields| :: c !in fields[i]
    ensures Split(Join(fields, [c]), c) == fields
  {
    var joined := Join(fields, [c]);
    if |fields| == 1 {
      assert joined == fields[0];
      IndexByteIs(joined, c, |joined|);
    } else {
      var n := |fields[0]|;
      assert joined == fields[0] + [c] + Join(fields[1..], [c]);
      IndexByteIs(joined, c, n);
      assert joined[..n] == fields[0] && joined[n + 1..] == Join(fields[1..], [c]);
      SplitJoin(fields[1..], c);
    }
  }

  lemma {:induction false} JoinAvoids(fields: seq<string>, sep: string, c: char)
    requires c !in sep && forall i | 0 <= i < |fields| :: c !in fields[i]
    ensures c !in Join(fields, sep)
  {
    if |fields| > 1 { JoinAvoids(fields[1..], sep, c); }
  }

  // ------------------------------------------------------------ encoding

  function Quoted(q: Quoting, values: seq<string>): seq<string> {
    seq(|values|, i requires 0 <= i < |values| => q.quote(values[i]))
  }

  function FieldsOf(q: Quoting, e: Entry): seq<string>
  {
    [ItoaInt(e.number)] + Quoted(q, [e.dir] + e.argv)
  }

  function EncodedLine(q: Quoting, e: Entry): string
  {
    Join(FieldsOf(q, e), "\t")
  }

  function Encoded(q: Quoting, e: Entry): string
  {
    EncodedLine(q, e) + "\n"
  }

  /** The columns of a line: the number, the quoted directory, and every argument quoted, in order. */
  lemma EncodedExactly(q: Quoting, e: Entry)
    requires q.Lawful() && Recordable(e)
    ensures var fields := Split(EncodedLine(q, e), '\t');
            |fields| == 2 + |e.argv| && Atoi(fields[0]) == Some(e.number) && fields[1] == q.quote(e.dir)
            && forall i | 0 <= i < |e.argv| :: fields[2 + i] == q.quote(e.argv[i])
    ensures Encoded(q, e) == EncodedLine(q, e) + "\n" && '\n' !in EncodedLine(q, e)
  {
    FieldsAreClean(q, e, '\t');
    SplitJoin(FieldsOf(q, e), '\t');
    AtoiItoa(e.number);
    LineRoundTrip(q, e);
  }

  method Encode(q: Quoting, number: int, dir: string, argv: seq<string>) returns (line: string)
    ensures line == Encoded(q, Entry(number, dir, argv))
  {
    var fields := [ItoaInt(number), q.quote(dir)];
    for i := 0 to |argv|
      invariant fields == [ItoaInt(number), q.quote(dir)] + Quoted(q, argv[..i])
    {
      fields := fields + [q.quote(argv[i])];
    }
    assert fields == FieldsOf(q, Entry(number, dir, argv));
    return Join(fields, "\t") + "\n";
  }

  // ------------------------------------------------------------ decoding

  function Prepend<A>(head: seq<A>, tail: Option<seq<A>>): Option<seq<A>> {
    match tail case None => None case Some(rest) => Some(head + rest)
  }

  lemma PrependNothing<A>(tail: Option<seq<A>>)
    ensures Prepend([], tail) == tail
  {
    if tail.Some? { assert [] + tail.value == tail.value; }
  }

  lemma PrependTwice<A>(a: seq<A>, b: seq<A>, tail: Option<seq<A>>)
    ensures Prepend(a, Prepend(b, tail)) == Prepend(a + b, tail)
  {
    if tail.Some? { Associate(a, b, tail.value); }
  }

  function UnquotedAll(q: Quoting, fields: seq<string>): Option<seq<string>> {
    if fields == [] then Some([])
    else
      match q.unquote(fields[0])
      case None => None
      case Some(value) =>
        Prepend([value], UnquotedAll(q, fields[1..]))
  }

  function DecodedLine(q: Quoting, line: string): Option<Entry> {
    var fields := Split(line, '\t');
    if |fields| < 2 then None
    else
      match Atoi(fields[0])
      case None => None
      case Some(n) =>
        if n < 1 then None
        else
          match UnquotedAll(q, fields[1..])
          case None => None
          case Some(values) => if values == [] then None else Some(Entry(n, values[0], values[1..]))
  }

  /** The entries of the complete lines; None when one of them is not readable. */
  function Decoded(q: Quoting, contents: string): Option<seq<Entry>>
    decreases |contents|
  {
    var end := IndexByte(contents, '\n');
    if end == |contents| then Some([])
    else if end == 0 then None
    else
      match DecodedLine(q, contents[..end])
      case None => None
      case Some(e) =>
        Prepend([e], Decoded(q, contents[end + 1..]))
  }

  method DecodeLine(q: Quoting, line: string) returns (entry: Option<Entry>)
    ensures entry == DecodedLine(q, line)
  {
    var fields := Split(line, '\t');
    if |fields| < 2 { return None; }
    var number := Atoi(fields[0]);
    if number.None? || number.value < 1 { return None; }
    var values: seq<string> := [];
    PrependNothing(UnquotedAll(q, fields[1..]));
    for i := 1 to |fields|
      invariant UnquotedAll(q, fields[1..]) == Prepend(values, UnquotedAll(q, fields[i..])) && |values| == i - 1
    {
      assert fields[i..][0] == fields[i] && fields[i..][1..] == fields[i + 1..];
      var value := q.unquote(fields[i]);
      if value.None? { return None; }
      PrependTwice(values, [value.value], UnquotedAll(q, fields[i + 1..]));
      values := values + [value.value];
    }
    assert values + [] == values;
    return Some(Entry(number.value, values[0], values[1..]));
  }

  method Decode(q: Quoting, contents: string) returns (entries: Option<seq<Entry>>)
    ensures entries == Decoded(q, contents)
  {
    var found: seq<Entry> := [];
    var left := contents;
    PrependNothing(Decoded(q, contents));
    while |left| > 0
      invariant Decoded(q, contents) == Prepend(found, Decoded(q, left))
      decreases |left|
    {
      var end := IndexByte(left, '\n');
      if end == |left| { break; }
      if end == 0 { return None; }
      var entry := DecodeLine(q, left[..end]);
      if entry.None? { return None; }
      PrependTwice(found, [entry.value], Decoded(q, left[end + 1..]));
      found := found + [entry.value];
      left := left[end + 1..];
    }
    assert found + [] == found;
    return Some(found);
  }

  // ------------------------------------------------------------ round trip

  ghost predicate Recordable(e: Entry) {
    1 <= e.number < INT64_LIMIT
  }

  ghost predicate AllRecordable(entries: seq<Entry>) {
    forall i | 0 <= i < |entries| :: Recordable(entries[i])
  }

  function Log(q: Quoting, entries: seq<Entry>): string
  {
    if entries == [] then "" else Encoded(q, entries[0]) + Log(q, entries[1..])
  }

  lemma {:induction false} UnquoteQuoted(q: Quoting, values: seq<string>)
    requires q.Lawful()
    ensures UnquotedAll(q, Quoted(q, values)) == Some(values)
  {
    if values != [] {
      UnquoteQuoted(q, values[1..]);
      assert Quoted(q, values)[1..] == Quoted(q, values[1..]);
      assert q.unquote(q.quote(values[0])) == Some(values[0]);
      assert [values[0]] + values[1..] == values;
    }
  }

  lemma FieldsAreClean(q: Quoting, e: Entry, c: char)
    requires q.Lawful() && Recordable(e) && (c == '\t' || c == '\n')
    ensures forall i | 0 <= i < |FieldsOf(q, e)| :: c !in FieldsOf(q, e)[i]
  {
    assert ItoaInt(e.number) == Itoa(e.number);
    ItoaValue(e.number);
    var values := [e.dir] + e.argv;
    forall i | 0 <= i < |values|
      ensures c !in Quoted(q, values)[i]
    {
      assert q.unquote(q.quote(values[i])) == Some(values[i]);
    }
  }

  /** One line reads back as its entry. */
  lemma LineRoundTrip(q: Quoting, e: Entry)
    requires q.Lawful() && Recordable(e)
    ensures DecodedLine(q, EncodedLine(q, e)) == Some(e)
    ensures '\n' !in EncodedLine(q, e) && EncodedLine(q, e) != ""
  {
    FieldsAreClean(q, e, '\t');
    FieldsAreClean(q, e, '\n');
    SplitJoin(FieldsOf(q, e), '\t');
    JoinAvoids(FieldsOf(q, e), "\t", '\n');
    AtoiItoa(e.number);
    UnquoteQuoted(q, [e.dir] + e.argv);
    assert FieldsOf(q, e)[1..] == Quoted(q, [e.dir] + e.argv);
    assert ([e.dir] + e.argv)[1..] == e.argv;
  }

  lemma DecodedStep(q: Quoting, e: Entry, rest: string)
    requires q.Lawful() && Recordable(e)
    ensures Decoded(q, Encoded(q, e) + rest) == Prepend([e], Decoded(q, rest))
  {
    var line := EncodedLine(q, e);
    var text := Encoded(q, e) + rest;
    LineRoundTrip(q, e);
    assert text[..|line|] == line && text[|line| + 1..] == rest;
    IndexByteIs(text, '\n', |line|);
  }

  /** How many entries lie completely within the first n characters. */
  function Whole(q: Quoting, entries: seq<Entry>, n: nat): (k: nat)
    ensures k <= |entries|
  {
    if entries == [] || n < |Encoded(q, entries[0])| then 0
    else 1 + Whole(q, entries[1..], n - |Encoded(q, entries[0])|)
  }

  lemma {:induction false} WholeMeans(q: Quoting, entries: seq<Entry>, n: nat)
    requires AllRecordable(entries)
    ensures var k := Whole(q, entries, n);
            |Log(q, entries[..k])| <= n && (k < |entries| ==> n < |Log(q, entries[..k + 1])|)
  {
    if entries != [] {
      var first := |Encoded(q, entries[0])|;
      if n >= first {
        WholeMeans(q, entries[1..], n - first);
        var k := Whole(q, entries, n);
        assert entries[..k][1..] == entries[1..][..k - 1];
        assert k < |entries| ==> entries[..k + 1][1..] == entries[1..][..k];
      } else {
        assert entries[..1][1..] == [] && entries[..0] == [];
      }
    }
  }

  /** Any prefix of a log decodes to exactly the entries whose lines are complete in it. */
  lemma {:induction false} PrefixDecodes(q: Quoting, entries: seq<Entry>, n: nat)
    requires q.Lawful() && AllRecordable(entries) && n <= |Log(q, entries)|
    ensures Decoded(q, Log(q, entries)[..n]) == Some(entries[..Whole(q, entries, n)])
  {
    if entries != [] {
      var line, rest := Encoded(q, entries[0]), Log(q, entries[1..]);
      if n < |line| {
        TornLine(q, entries[0], n);
        assert Log(q, entries)[..n] == line[..n];
      } else {
        PrefixDecodes(q, entries[1..], n - |line|);
        DecodedStep(q, entries[0], rest[..n - |line|]);
        assert (line + rest)[..n] == line + rest[..n - |line|];
        TakeCons(entries, Whole(q, entries, n));
      }
    }
  }

  lemma TakeCons(entries: seq<Entry>, k: nat)
    requires 0 < k <= |entries|
    ensures [entries[0]] + entries[1..][..k - 1] == entries[..k]
  {
  }

  lemma TornLine(q: Quoting, e: Entry, n: nat)
    requires q.Lawful() && Recordable(e) && n < |Encoded(q, e)|
    ensures Decoded(q, Encoded(q, e)[..n]) == Some([])
  {
    LineRoundTrip(q, e);
    IndexByteIs(Encoded(q, e)[..n], '\n', n);
  }

  /** Text after a whole log is decoded after its entries. */
  lemma {:induction false} DecodedAfter(q: Quoting, entries: seq<Entry>, rest: string)
    requires q.Lawful() && AllRecordable(entries)
    ensures Decoded(q, Log(q, entries) + rest) == Prepend(entries, Decoded(q, rest))
  {
    if entries == [] {
      PrependNothing(Decoded(q, rest));
      assert Log(q, entries) + rest == rest;
    } else {
      DecodedAfter(q, entries[1..], rest);
      DecodedStep(q, entries[0], Log(q, entries[1..]) + rest);
      Associate(Encoded(q, entries[0]), Log(q, entries[1..]), rest);
      PrependTwice([entries[0]], entries[1..], Decoded(q, rest));
      assert [entries[0]] + entries[1..] == entries;
    }
  }

  /** The whole log round-trips. */
  lemma LogRoundTrip(q: Quoting, entries: seq<Entry>)
    requires q.Lawful() && AllRecordable(entries)
    ensures Decoded(q, Log(q, entries)) == Some(entries)
  {
    DecodedAfter(q, entries, "");
    assert Log(q, entries) + "" == Log(q, entries);
    assert entries + [] == entries;
  }

  // ------------------------------------------------------------ recording

  /** What is recorded next: one number after the last entry. */
  function Next(entries: seq<Entry>, dir: string, argv: seq<string>): Entry {
    Entry((if entries == [] then 0 else entries[|entries| - 1].number) + 1, dir, argv)
  }

  /** The trace file. */
  class File {
    var contents: string

    constructor ()
      ensures contents == ""
    {
      contents := "";
    }

    /** Appends one entry numbered after the last readable one. */
    method Record(q: Quoting, argv: seq<string>, dir: string) returns (ok: bool)
      modifies this
      ensures ok == Decoded(q, old(contents)).Some?
      ensures !ok ==> contents == old(contents)
      ensures ok ==> contents == old(contents) + Encoded(q, Next(Decoded(q, old(contents)).value, dir, argv))
    {
      var entries := Decode(q, contents);
      if entries.None? { return false; }
      var number := 1;
      if |entries.value| > 0 { number := entries.value[|entries.value| - 1].number + 1; }
      var line := Encode(q, number, dir, argv);
      contents := contents + line;
      return true;
    }
  }

  lemma EncodedAlone(q: Quoting, e: Entry)
    requires q.Lawful() && Recordable(e)
    ensures Decoded(q, Encoded(q, e)) == Some([e])
  {
    DecodedStep(q, e, "");
    assert Encoded(q, e) + "" == Encoded(q, e);
    assert [e] + [] == [e];
  }

  /** Recording to a complete log extends it by one entry with the next number. */
  lemma RecordExtends(q: Quoting, entries: seq<Entry>, dir: string, argv: seq<string>)
    requires q.Lawful() && AllRecordable(entries) && Recordable(Next(entries, dir, argv))
    ensures Decoded(q, Log(q, entries)) == Some(entries)
    ensures var e := Next(entries, dir, argv);
            Decoded(q, Log(q, entries) + Encoded(q, e)) == Some(entries + [e])
  {
    LogRoundTrip(q, entries);
    DecodedAfter(q, entries, Encoded(q, Next(entries, dir, argv)));
    EncodedAlone(q, Next(entries, dir, argv));
  }

  // ------------------------------------------------------------ recording after a torn write

  lemma {:induction false} SplitCount(s: string, c: char)
    ensures |Split(s, c)| == 1 + multiset(s)[c]
  {
    var n := IndexByte(s, c);
    if n == |s| {
      assert c !in s;
    } else {
      SplitCount(s[n + 1..], c);
      assert s == s[..n] + [c] + s[n + 1..];
      assert c !in s[..n];
    }
  }

  lemma {:induction false} UnquotedLength(q: Quoting, fields: seq<string>)
    ensures UnquotedAll(q, fields).Some? ==> |UnquotedAll(q, fields).value| == |fields|
  {
    if fields != [] { UnquotedLength(q, fields[1..]); }
  }

  /** A readable line has one argument for each field after the number and the directory. */
  lemma DecodedFields(q: Quoting, line: string)
    ensures DecodedLine(q, line).Some? ==> |DecodedLine(q, line).value.argv| == |Split(line, '\t')| - 2
  {
    UnquotedLength(q, Split(line, '\t')[1..]);
  }

  /** Torn text with a tab in it adds a field. */
  lemma TornFieldAdds(q: Quoting, torn: string, e: Entry)
    requires q.Lawful() && Recordable(e) && '\t' in torn
    ensures DecodedLine(q, torn + EncodedLine(q, e)) != Some(e)
  {
    var line := EncodedLine(q, e);
    LineRoundTrip(q, e);
    DecodedFields(q, line);
    DecodedFields(q, torn + line);
    SplitCount(line, '\t');
    SplitCount(torn + line, '\t');
  }

  lemma LineStarts(q: Quoting, e: Entry)
    requires Recordable(e)
    ensures EncodedLine(q, e) == Itoa(e.number) + ['\t'] + Join(FieldsOf(q, e)[1..], "\t")
  {
  }

  /** The number of a readable line is what stands before the first tab. */
  lemma NumberField(q: Quoting, field: string, rest: string)
    requires '\t' !in field
    ensures var e := DecodedLine(q, field + ['\t'] + rest); e.Some? ==> Atoi(field) == Some(e.value.number)
  {
    var line := field + ['\t'] + rest;
    IndexByteIs(line, '\t', |field|);
    assert line[..|field|] == field;
  }

  /** Torn text without a tab is the start of a number and changes the next one. */
  lemma TornNumberChanges(q: Quoting, torn: string, e: Entry)
    requires Recordable(e) && IsDigits(torn) && Value(torn) > 0
    ensures DecodedLine(q, torn + EncodedLine(q, e)) != Some(e)
  {
    var number, rest := Itoa(e.number), Join(FieldsOf(q, e)[1..], "\t");
    ItoaValue(e.number);
    DigitsInFront(torn, number);
    AtoiDigits(torn + number);
    NumberField(q, torn + number, rest);
    LineStarts(q, e);
    Regroup(torn, number, ['\t'], rest);
  }

  lemma Regroup(a: string, b: string, c: string, d: string)
    ensures a + (b + c + d) == (a + b) + c + d
  {
  }

  /** A non-empty start of a line, without its newline, spoils whatever is appended to it. */
  lemma TornLineSpoils(q: Quoting, was: Entry, n: nat, e: Entry)
    requires q.Lawful() && Recordable(was) && Recordable(e) && 0 < n < |Encoded(q, was)|
    ensures Decoded(q, Encoded(q, was)[..n] + Encoded(q, e)) != Some([e])
    ensures '\n' !in Encoded(q, was)[..n]
  {
    var torn, line := Encoded(q, was)[..n], EncodedLine(q, e);
    LineRoundTrip(q, was);
    LineRoundTrip(q, e);
    LineStarts(q, was);
    assert torn == EncodedLine(q, was)[..n];
    if n > |Itoa(was.number)| {
      assert torn[|Itoa(was.number)|] == '\t';
      TornFieldAdds(q, torn, e);
    } else {
      assert torn == Itoa(was.number)[..n];
      NoLeadingZero(was.number, n);
      TornNumberChanges(q, torn, e);
    }
    OneLine(q, torn + line);
    Associate(torn, line, "\n");
  }

  lemma OneLine(q: Quoting, line: string)
    requires line != "" && '\n' !in line
    ensures Decoded(q, line + "\n")
            == match DecodedLine(q, line) case None => None case Some(e) => Some([e])
  {
    var text := line + "\n";
    IndexByteIs(text, '\n', |line|);
    assert text[..|line|] == line && text[|line| + 1..] == "";
    assert forall e: Entry :: [e] + [] == [e];
  }

  /** What a prefix holds after its complete lines. */
  function Torn(q: Quoting, entries: seq<Entry>, n: nat): string
    requires n <= |Log(q, entries)|
  {
    if entries == [] then ""
    else if n < |Encoded(q, entries[0])| then Encoded(q, entries[0])[..n]
    else Torn(q, entries[1..], n - |Encoded(q, entries[0])|)
  }

  lemma LogCons(q: Quoting, entries: seq<Entry>, k: nat)
    requires 0 < k <= |entries|
    ensures Log(q, entries[..k]) == Encoded(q, entries[0]) + Log(q, entries[1..][..k - 1])
  {
    assert entries[..k][1..] == entries[1..][..k - 1];
  }

  lemma TakeAfter(a: string, b: string, n: nat)
    requires |a| <= n <= |a + b|
    ensures (a + b)[..n] == a + b[..n - |a|]
  {
  }

  lemma {:induction false} PrefixSplits(q: Quoting, entries: seq<Entry>, n: nat)
    requires n <= |Log(q, entries)|
    ensures Log(q, entries)[..n] == Log(q, entries[..Whole(q, entries, n)]) + Torn(q, entries, n)
  {
    if entries != [] {
      var first, k := Encoded(q, entries[0]), Whole(q, entries, n);
      if n < |first| {
        assert Log(q, entries[..0]) == "";
      } else {
        PrefixSplits(q, entries[1..], n - |first|);
        LogCons(q, entries, k);
        TakeAfter(first, Log(q, entries[1..]), n);
        Associate(first, Log(q, entries[1..][..k - 1]), Torn(q, entries, n));
      }
    }
  }

  lemma {:induction false} TornSpoils(q: Quoting, entries: seq<Entry>, n: nat, e: Entry)
    requires q.Lawful() && AllRecordable(entries) && Recordable(e) && n <= |Log(q, entries)|
    requires Torn(q, entries, n) != ""
    ensures Decoded(q, Torn(q, entries, n) + Encoded(q, e)) != Some([e]) && '\n' !in Torn(q, entries, n)
  {
    assert Recordable(entries[0]);
    if n < |Encoded(q, entries[0])| {
      TornLineSpoils(q, entries[0], n, e);
    } else {
      TornSpoils(q, entries[1..], n - |Encoded(q, entries[0])|, e);
    }
  }

  /** Nothing was torn off: the file is empty or ends in a newline. */
  predicate AtLineEnd(text: string) {
    text == "" || text[|text| - 1] == '\n'
  }

  lemma {:induction false} LogEndsLine(q: Quoting, entries: seq<Entry>)
    ensures AtLineEnd(Log(q, entries))
  {
    if entries != [] {
      LogEndsLine(q, entries[1..]);
      assert Encoded(q, entries[0])[|Encoded(q, entries[0])| - 1] == '\n';
    }
  }

  /** A write that stopped anywhere loses only its own entry for a reader, but the next record is
      read back if and only if the text before it ends at the end of a line. */
  lemma RecordAfterTornWrite(q: Quoting, entries: seq<Entry>, n: nat, dir: string, argv: seq<string>)
    requires q.Lawful() && AllRecordable(entries) && n <= |Log(q, entries)|
    requires Recordable(Next(entries[..Whole(q, entries, n)], dir, argv))
    ensures var left, kept := Log(q, entries)[..n], entries[..Whole(q, entries, n)];
            var e := Next(kept, dir, argv);
            Decoded(q, left) == Some(kept)
            && (Decoded(q, left + Encoded(q, e)) == Some(kept + [e]) <==> AtLineEnd(left))
  {
    var kept, torn := entries[..Whole(q, entries, n)], Torn(q, entries, n);
    PrefixDecodes(q, entries, n);
    PrefixSplits(q, entries, n);
    if torn != "" { TornSpoils(q, entries, n, Next(kept, dir, argv)); }
    AppendedAfter(q, kept, torn, Next(kept, dir, argv));
  }

  /** Appending to whole lines and torn text, given that such text spoils what follows it. */
  lemma AppendedAfter(q: Quoting, kept: seq<Entry>, torn: string, e: Entry)
    requires q.Lawful() && AllRecordable(kept) && Recordable(e)
    requires torn != "" ==> Decoded(q, torn + Encoded(q, e)) != Some([e]) && '\n' !in torn
    ensures Decoded(q, Log(q, kept) + torn + Encoded(q, e)) == Some(kept + [e]) <==> AtLineEnd(Log(q, kept) + torn)
  {
    LogEndsLine(q, kept);
    if torn == "" {
      assert Log(q, kept) + torn == Log(q, kept);
      DecodedAfter(q, kept, Encoded(q, e));
      EncodedAlone(q, e);
    } else {
      assert (Log(q, kept) + torn)[|Log(q, kept) + torn| - 1] == torn[|torn| - 1];
      MergedText(q, kept, torn, e);
    }
  }

  lemma MergedText(q: Quoting, kept: seq<Entry>, torn: string, e: Entry)
    requires q.Lawful() && AllRecordable(kept) && Decoded(q, torn + Encoded(q, e)) != Some([e])
    ensures Decoded(q, Log(q, kept) + torn + Encoded(q, e)) != Some(kept + [e])
  {
    DecodedAfter(q, kept, torn + Encoded(q, e));
    Associate(Log(q, kept), torn, Encoded(q, e));
    SameTail(kept, Decoded(q, torn + Encoded(q, e)), e);
  }

  lemma SameTail(kept: seq<Entry>, tail: Option<seq<Entry>>, e: Entry)
    ensures Prepend(kept, tail) == Some(kept + [e]) ==> tail == Some([e])
  {
    if tail.Some? && kept + tail.value == kept + [e] {
      assert (kept + tail.value)[|kept|..] == tail.value && (kept + [e])[|kept|..] == [e];
    }
  }

  /** For instance a lone "1" makes the first entry read back as number 11. */
  lemma TornWriteCounterexample(q: Quoting, dir: string, argv: seq<string>)
    requires q.Lawful()
    ensures "1" < Encoded(q, Entry(1, dir, argv)) && Decoded(q, "1") == Some([])
    ensures Decoded(q, "1" + Encoded(q, Entry(1, dir, argv))) == Some([Entry(11, dir, argv)])
  {
    var one, eleven := Entry(1, dir, argv), Entry(11, dir, argv);
    assert ItoaInt(1) == Itoa(1) == "1" && ItoaInt(11) == Itoa(11) == Itoa(1) + [Digit(1)] == "11";
    assert FieldsOf(q, one)[1..] == FieldsOf(q, eleven)[1..];
    assert "1" + Encoded(q, one) == Encoded(q, eleven);
    EncodedAlone(q, eleven);
    IndexByteIs("1", '\n', 1);
  }
}
