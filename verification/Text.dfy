/** Strings as the stamp, ready-queue and trace code see them: white space, lines,
    words and decimal numbers. */
module Text {

  datatype Option<+T> = None | Some(value: T)

  /** Unicode white space, as Go's unicode.IsSpace defines it. */
  predicate IsSpace(c: char) {
    var n := c as int;
    9 <= n <= 13 || n == 0x20 || n == 0x85 || n == 0xA0 || n == 0x1680 || 0x2000 <= n <= 0x200A
    || n == 0x2028 || n == 0x2029 || n == 0x202F || n == 0x205F || n == 0x3000
  }

  predicate Blank(s: string) {
    forall i | 0 <= i < |s| :: IsSpace(s[i])
  }

  lemma BlankConcat(a: string, b: string)
    ensures Blank(a + b) <==> Blank(a) && Blank(b)
  {
    if Blank(a + b) {
      assert forall i | 0 <= i < |a| :: a[i] == (a + b)[i];
      assert forall i | 0 <= i < |b| :: b[i] == (a + b)[|a| + i];
    }
  }

  function TrimLeft(s: string): string {
    if s != "" && IsSpace(s[0]) then TrimLeft(s[1..]) else s
  }

  function TrimRight(s: string): string {
    if s != "" && IsSpace(s[|s| - 1]) then TrimRight(s[..|s| - 1]) else s
  }

  /** strings.TrimSpace. */
  function TrimSpace(s: string): string {
    TrimRight(TrimLeft(s))
  }

  lemma TrimSpaceId(s: string)
    requires s == "" || (!IsSpace(s[0]) && !IsSpace(s[|s| - 1]))
    ensures TrimSpace(s) == s
  {
  }

  lemma {:induction false} TrimRightKeeps(s: string)
    requires s != "" && !IsSpace(s[0])
    ensures TrimRight(s) != ""
  {
    if IsSpace(s[|s| - 1]) { TrimRightKeeps(s[..|s| - 1]); }
  }

  lemma {:induction false} TrimSpaceEmpty(s: string)
    ensures TrimSpace(s) == "" <==> Blank(s)
  {
    if s != "" {
      if IsSpace(s[0]) {
        TrimSpaceEmpty(s[1..]);
        assert s == [s[0]] + s[1..];
      } else {
        TrimRightKeeps(s);
      }
    }
  }

  /** strings.TrimSuffix for a one-character suffix. */
  function DropSuffix(s: string, c: char): string {
    if s != "" && s[|s| - 1] == c then s[..|s| - 1] else s
  }

  /** Where c first is, or the length when it is nowhere. */
  function IndexByte(s: string, c: char): (n: nat)
    ensures n <= |s|
    ensures n < |s| ==> s[n] == c
    ensures forall i | 0 <= i < n :: s[i] != c
  {
    if s == "" || s[0] == c then 0 else 1 + IndexByte(s[1..], c)
  }

  lemma IndexByteIs(s: string, c: char, n: nat)
    requires n <= |s| && (n < |s| ==> s[n] == c) && forall i | 0 <= i < n :: s[i] != c
    ensures IndexByte(s, c) == n
  {
  }

  lemma Associate<T>(a: seq<T>, b: seq<T>, c: seq<T>)
    ensures a + (b + c) == (a + b) + c
  {
  }

  /** Concatenation of all pieces (strings.Join with an empty separator). */
  function Concat(pieces: seq<string>): string {
    if pieces == [] then "" else pieces[0] + Concat(pieces[1..])
  }

  lemma {:induction false} ConcatAppend(a: seq<string>, b: seq<string>)
    ensures Concat(a + b) == Concat(a) + Concat(b)
  {
    if a == [] {
      assert a + b == b;
    } else {
      ConcatAppend(a[1..], b);
      assert (a + b)[0] == a[0] && (a + b)[1..] == a[1..] + b;
      Associate(a[0], Concat(a[1..]), Concat(b));
    }
  }

  lemma ConcatCons(x: string, a: seq<string>)
    ensures Concat([x] + a) == x + Concat(a)
  {
    assert ([x] + a)[1..] == a;
  }

  lemma ConcatSnoc(a: seq<string>, x: string)
    ensures Concat(a + [x]) == Concat(a) + x
  {
    ConcatAppend(a, [x]);
    assert Concat([x]) == x + Concat([]);
  }

  /** strings.Join. */
  function Join(pieces: seq<string>, sep: string): string {
    if pieces == [] then ""
    else if |pieces| == 1 then pieces[0]
    else pieces[0] + sep + Join(pieces[1..], sep)
  }

  // ---------------------------------------------------------------- words

  /** Length of the leading run of non-space characters. */
  function WordLength(s: string): (n: nat)
    ensures n <= |s| && (forall i | 0 <= i < n :: !IsSpace(s[i])) && (n < |s| ==> IsSpace(s[n]))
  {
    if s == "" || IsSpace(s[0]) then 0 else 1 + WordLength(s[1..])
  }

  predicate IsWord(w: string) {
    w != "" && forall i | 0 <= i < |w| :: !IsSpace(w[i])
  }

  /** strings.Fields. */
  function Fields(s: string): seq<string> {
    if s == "" then []
    else if IsSpace(s[0]) then Fields(s[1..])
    else var n := WordLength(s); [s[..n]] + Fields(s[n..])
  }

  lemma {:induction false} FieldsAreWords(s: string)
    ensures forall i | 0 <= i < |Fields(s)| :: IsWord(Fields(s)[i])
    ensures forall i, j | 0 <= i < |Fields(s)| && 0 <= j < |Fields(s)[i]| :: Fields(s)[i][j] in s
    decreases |s|
  {
    if s != "" {
      if IsSpace(s[0]) {
        FieldsAreWords(s[1..]);
      } else {
        FieldsAreWords(s[WordLength(s)..]);
      }
    }
  }

  /** Splitting undoes joining with single spaces. */
  lemma {:induction false} FieldsJoin(ws: seq<string>)
    requires forall i | 0 <= i < |ws| :: IsWord(ws[i])
    ensures Fields(Join(ws, " ")) == ws
  {
    if |ws| == 1 {
      FieldsFirst(ws[0], "");
      assert ws[0] + "" == ws[0];
    } else if |ws| > 1 {
      FieldsJoin(ws[1..]);
      FieldsStep(ws[0], Join(ws[1..], " "), ws[1..]);
      assert Join(ws, " ") == ws[0] + (" " + Join(ws[1..], " "));
      assert [ws[0]] + ws[1..] == ws;
    }
  }

  lemma FieldsStep(w: string, rest: string, words: seq<string>)
    requires IsWord(w) && Fields(rest) == words
    ensures Fields(w + (" " + rest)) == [w] + words
  {
    FieldsFirst(w, " " + rest);
    assert (" " + rest)[1..] == rest;
  }

  lemma FieldsFirst(w: string, rest: string)
    requires IsWord(w) && (rest == "" || IsSpace(rest[0]))
    ensures Fields(w + rest) == [w] + Fields(rest)
  {
    var s := w + rest;
    WordLengthIs(s, |w|);
    assert s[..|w|] == w && s[|w|..] == rest;
  }

  lemma {:induction false} WordLengthIs(s: string, n: nat)
    requires n <= |s| && (forall i | 0 <= i < n :: !IsSpace(s[i])) && (n < |s| ==> IsSpace(s[n]))
    ensures WordLength(s) == n
  {
  }

  lemma {:induction false} JoinShape(ws: seq<string>)
    requires forall i | 0 <= i < |ws| :: IsWord(ws[i])
    ensures var s := Join(ws, " ");
            (s == "" <==> ws == []) && (s != "" ==> !IsSpace(s[0]) && !IsSpace(s[|s| - 1]))
    ensures forall c | c in Join(ws, " ") :: c == ' ' || exists i | 0 <= i < |ws| :: c in ws[i]
  {
    if |ws| > 1 {
      JoinShape(ws[1..]);
      var t := Join(ws[1..], " ");
      var s := Join(ws, " ");
      assert s == ws[0] + " " + t && t != "";
      assert s[0] == ws[0][0] && s[|s| - 1] == t[|t| - 1];
      forall c | c in s && c != ' '
        ensures exists i | 0 <= i < |ws| :: c in ws[i]
      {
        if c !in ws[0] {
          assert c in t;
          var i :| 0 <= i < |ws[1..]| && c in ws[1..][i];
          assert c in ws[i + 1];
        }
      }
    } else if |ws| == 1 {
      assert Join(ws, " ") == ws[0];
    }
  }

  // ---------------------------------------------------------------- lines

  /** Length of the first line of s, its newline included. */
  function LineLength(s: string): (n: nat)
    requires s != ""
    ensures 0 < n <= |s|
    ensures forall i | 0 <= i < n - 1 :: s[i] != '\n'
    ensures s[n - 1] == '\n' || n == |s|
  {
    if s[0] == '\n' || |s| == 1 then 1 else 1 + LineLength(s[1..])
  }

  /** The lines of s, each with its newline; only the last may lack one. */
  function Lines(s: string): seq<string> {
    if s == "" then []
    else var n := LineLength(s); [s[..n]] + Lines(s[n..])
  }

  lemma AreLinesCons(l: string, rest: seq<string>)
    requires IsLine(l) && AreLines(rest) && (rest == [] || Terminated(l))
    ensures AreLines([l] + rest)
  {
  }

  lemma {:induction false} LinesShape(s: string)
    ensures Concat(Lines(s)) == s && AreLines(Lines(s))
    decreases |s|
  {
    if s != "" {
      var n := LineLength(s);
      var l, rest := s[..n], Lines(s[n..]);
      LinesShape(s[n..]);
      FirstIsLine(s);
      AreLinesCons(l, rest);
      ConcatCons(l, rest);
      assert s == l + s[n..];
    }
  }

  lemma FirstIsLine(s: string)
    requires s != ""
    ensures var n := LineLength(s); IsLine(s[..n]) && (Lines(s[n..]) == [] || Terminated(s[..n]))
  {
    var n := LineLength(s);
    assert n == |s| ==> s[n..] == "";
  }

  /** One line: newlines only at its end. */
  predicate IsLine(l: string) {
    l != "" && forall i | 0 <= i < |l| - 1 :: l[i] != '\n'
  }

  predicate Terminated(l: string) {
    l != "" && l[|l| - 1] == '\n'
  }

  /** A sequence of lines in which every line but the last is terminated. */
  predicate AreLines(ls: seq<string>) {
    (forall i | 0 <= i < |ls| :: IsLine(ls[i])) && (forall i | 0 <= i < |ls| - 1 :: Terminated(ls[i]))
  }

  predicate AllTerminated(ls: seq<string>) {
    forall i | 0 <= i < |ls| :: Terminated(ls[i])
  }

  lemma AreLinesAppend(a: seq<string>, b: seq<string>)
    requires AreLines(a) && AllTerminated(a) && AreLines(b)
    ensures AreLines(a + b)
  {
  }

  /** Splitting undoes concatenation of well-formed lines. */
  lemma {:induction false} LinesConcat(ls: seq<string>)
    requires AreLines(ls)
    ensures Lines(Concat(ls)) == ls
  {
    if ls != [] {
      LinesConcat(ls[1..]);
      var s := Concat(ls);
      var n := LineLength(s);
      var l := ls[0];
      assert s == l + Concat(ls[1..]);
      assert forall i | 0 <= i < |l| :: s[i] == l[i];
      assert n == |l|;
      assert s[..n] == l && s[n..] == Concat(ls[1..]);
    }
  }
}
