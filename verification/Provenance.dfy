/** The trailer keys of this program and the trailers of one stamp (internal/stamp/stamp.go). */
module Provenance {
  import opened Text
  import opened Stamp

  const PREFIX := "Magicite-"

  const MAGICITE := Vocabulary([
    PREFIX + "Model", PREFIX + "Backend", PREFIX + "Difficulty", PREFIX + "Effort", PREFIX + "Agent",
    PREFIX + "Repo", PREFIX + "Seat", PREFIX + "Task", PREFIX + "Harness", PREFIX + "Harness-Rev"
  ])

  /** The provenance fields in key order. */
  datatype StampData = StampData(model: string, backend: string, difficulty: string, effort: string, agent: string,
                         repo: string, seat: string, task: string, harness: string, harnessRev: string)
  {
    function Values(): (vs: seq<string>)
      ensures |vs| == |MAGICITE.keys|
    {
      [model, backend, difficulty, effort, agent, repo, seat, task, harness, harnessRev]
    }
  }

  function Entry(key: string, value: string): seq<Trailer> {
    if Sanitize(value) == "" then [] else [Trailer(key, Sanitize(value))]
  }

  function Zip(values: seq<string>, keys: seq<string>): seq<Trailer>
    requires |values| == |keys|
  {
    if keys == [] then []
    else
      Entry(keys[0], values[0]) + Zip(values[1..], keys[1..])
  }

  /** Non-empty sanitized fields in key order. */
  function StampTrailers(s: StampData): seq<Trailer> {
    Zip(s.Values(), MAGICITE.keys)
  }

  lemma {:induction false} LastValueSkips(pre: seq<Trailer>, post: seq<Trailer>, key: string)
    requires forall i | 0 <= i < |post| :: post[i].key != key
    ensures LastValue(pre + post, key) == LastValue(pre, key)
  {
    if post == [] {
      assert pre + post == pre;
    } else {
      var init := post[..|post| - 1];
      assert (pre + post)[..|pre + post| - 1] == pre + init;
      LastValueSkips(pre, init, key);
    }
  }

  lemma {:induction false} ZipKeys(values: seq<string>, keys: seq<string>)
    requires |values| == |keys|
    ensures forall i | 0 <= i < |Zip(values, keys)| :: Zip(values, keys)[i].key in keys
  {
    if keys != [] { ZipKeys(values[1..], keys[1..]); }
  }

  lemma LastValueEntry(pre: seq<Trailer>, key: string, value: string, post: seq<Trailer>)
    requires (forall i | 0 <= i < |pre| :: pre[i].key != key) && (forall i | 0 <= i < |post| :: post[i].key != key)
    ensures LastValue(pre + Entry(key, value) + post, key) == Sanitize(value)
  {
    var head := pre + Entry(key, value);
    LastValueSkips(head, post, key);
    if Sanitize(value) == "" {
      LastValueSkips([], pre, key);
      assert [] + pre == pre && head == pre;
    } else {
      SanitizeIdempotent(value);
      var last := Trailer(key, Sanitize(value));
      assert head[|head| - 1] == last;
    }
  }

  lemma {:induction false} PickZip(pre: seq<Trailer>, values: seq<string>, keys: seq<string>)
    requires |values| == |keys| && (forall i, j | 0 <= i < j < |keys| :: keys[i] != keys[j])
    requires forall i | 0 <= i < |pre| :: pre[i].key !in keys
    ensures Pick(pre + Zip(values, keys), keys) == Zip(values, keys)
    decreases |keys|
  {
    if keys != [] {
      var head, rest := Entry(keys[0], values[0]), Zip(values[1..], keys[1..]);
      ZipKeys(values[1..], keys[1..]);
      LastValueEntry(pre, keys[0], values[0], rest);
      assert pre + (head + rest) == pre + head + rest;
      PickZip(pre + head, values[1..], keys[1..]);
    }
  }

  /** A stamp's trailers are already canonical, so stamping a message and reading it back
      returns them. */
  lemma StampRoundTrip(message: string, s: StampData)
    ensures Canonical(MAGICITE, StampTrailers(s)) == StampTrailers(s)
    ensures Parsed(MAGICITE, Applied(MAGICITE, message, StampTrailers(s))) == StampTrailers(s)
  {
    var v := MAGICITE;
    MagiciteValid();
    ZipCanonical(v, s.Values());
    ParseApply(v, message, StampTrailers(s));
  }

  lemma {:induction false} ZipValue(pre: seq<Trailer>, values: seq<string>, keys: seq<string>, n: nat)
    requires |values| == |keys| && n < |keys| && (forall i, j | 0 <= i < j < |keys| :: keys[i] != keys[j])
    requires forall i | 0 <= i < |pre| :: pre[i].key !in keys
    ensures LastValue(pre + Zip(values, keys), keys[n]) == Sanitize(values[n])
    decreases |keys|
  {
    var head, rest := Entry(keys[0], values[0]), Zip(values[1..], keys[1..]);
    ZipKeys(values[1..], keys[1..]);
    assert pre + (head + rest) == pre + head + rest;
    if n == 0 {
      LastValueEntry(pre, keys[0], values[0], rest);
    } else {
      ZipValue(pre + head, values[1..], keys[1..], n - 1);
    }
  }

  /** The value that the parsed message carries under a key. */
  ghost predicate Carries(message: string, s: StampData, key: string, field: string) {
    LastValue(Parsed(MAGICITE, Applied(MAGICITE, message, StampTrailers(s))), key) == Sanitize(field)
  }

  /** Every field is read back under its own key, whatever the message. */
  lemma FieldsReadBack(message: string, s: StampData)
    ensures Carries(message, s, "Magicite-Model", s.model) && Carries(message, s, "Magicite-Backend", s.backend)
    ensures Carries(message, s, "Magicite-Difficulty", s.difficulty) && Carries(message, s, "Magicite-Effort", s.effort)
    ensures Carries(message, s, "Magicite-Agent", s.agent) && Carries(message, s, "Magicite-Repo", s.repo)
    ensures Carries(message, s, "Magicite-Seat", s.seat) && Carries(message, s, "Magicite-Task", s.task)
    ensures Carries(message, s, "Magicite-Harness", s.harness)
    ensures Carries(message, s, "Magicite-Harness-Rev", s.harnessRev)
  {
    MagiciteValid();
    StampRoundTrip(message, s);
    forall n | 0 <= n < 10
      ensures Carries(message, s, MAGICITE.keys[n], s.Values()[n])
    {
      ZipValue([], s.Values(), MAGICITE.keys, n);
      assert [] + Zip(s.Values(), MAGICITE.keys) == StampTrailers(s);
    }
    KeyNames();
    assert Carries(message, s, MAGICITE.keys[0], s.Values()[0]) && Carries(message, s, MAGICITE.keys[1], s.Values()[1]);
    assert Carries(message, s, MAGICITE.keys[2], s.Values()[2]) && Carries(message, s, MAGICITE.keys[3], s.Values()[3]);
    assert Carries(message, s, MAGICITE.keys[4], s.Values()[4]) && Carries(message, s, MAGICITE.keys[5], s.Values()[5]);
    assert Carries(message, s, MAGICITE.keys[6], s.Values()[6]) && Carries(message, s, MAGICITE.keys[7], s.Values()[7]);
    assert Carries(message, s, MAGICITE.keys[8], s.Values()[8]) && Carries(message, s, MAGICITE.keys[9], s.Values()[9]);
  }

  lemma KeyNames()
    ensures MAGICITE.keys == ["Magicite-Model", "Magicite-Backend", "Magicite-Difficulty", "Magicite-Effort",
                              "Magicite-Agent", "Magicite-Repo", "Magicite-Seat", "Magicite-Task", "Magicite-Harness",
                              "Magicite-Harness-Rev"]
  {
    assert PREFIX + "Model" == "Magicite-Model" && PREFIX + "Backend" == "Magicite-Backend";
    assert PREFIX + "Difficulty" == "Magicite-Difficulty" && PREFIX + "Effort" == "Magicite-Effort";
    assert PREFIX + "Agent" == "Magicite-Agent" && PREFIX + "Repo" == "Magicite-Repo";
    assert PREFIX + "Seat" == "Magicite-Seat" && PREFIX + "Task" == "Magicite-Task";
    assert PREFIX + "Harness" == "Magicite-Harness" && PREFIX + "Harness-Rev" == "Magicite-Harness-Rev";
  }

  lemma ZipCanonical(v: Vocabulary, values: seq<string>)
    requires v.Valid() && |values| == |v.keys|
    ensures Canonical(v, Zip(values, v.keys)) == Zip(values, v.keys)
  {
    PickZip([], values, v.keys);
    assert [] + Zip(values, v.keys) == Zip(values, v.keys);
  }

  lemma {:induction false} ZipSnoc(values: seq<string>, keys: seq<string>, n: nat)
    requires n < |values| == |keys|
    ensures Zip(values[..n + 1], keys[..n + 1]) == Zip(values[..n], keys[..n]) + Entry(keys[n], values[n])
  {
    if n == 0 {
      assert keys[..1][1..] == [] && values[..1][1..] == [];
    } else {
      ZipSnoc(values[1..], keys[1..], n - 1);
      assert keys[..n + 1][1..] == keys[1..][..n] && keys[..n][1..] == keys[1..][..n - 1];
      assert values[..n + 1][1..] == values[1..][..n] && values[..n][1..] == values[1..][..n - 1];
    }
  }

  method Trailers(s: StampData) returns (trailers: seq<Trailer>)
    ensures trailers == StampTrailers(s)
  {
    var values, keys := s.Values(), MAGICITE.keys;
    trailers := [];
    for n := 0 to |values|
      invariant trailers == Zip(values[..n], keys[..n])
    {
      ZipSnoc(values, keys, n);
      var value := Sanitize(values[n]);
      if value != "" { trailers := trailers + [Trailer(keys[n], value)]; }
    }
    assert values[..|values|] == values && keys[..|keys|] == keys;
  }

  /** A number that tells the ten keys apart. */
  function Mark(k: string): int
    requires |k| > 9
  {
    |k| + k[9] as int
  }

  lemma MagiciteKey(n: nat)
    requires n < |MAGICITE.keys|
    ensures var k := MAGICITE.keys[n];
            |k| > 9 && Mark(k) == [91, 82, 87, 84, 79, 95, 96, 97, 88, 92][n]
            && forall i | 0 <= i < |k| :: k[i] != ':' && k[i] != '\n'
  {
    if n < 5 {
      if n == 0 {} else if n == 1 {} else if n == 2 {} else if n == 3 {} else {}
    } else {
      if n == 5 {} else if n == 6 {} else if n == 7 {} else if n == 8 {} else {}
    }
  }

  lemma MarksDistinct(i: nat, j: nat)
    requires i < j < 10
    ensures var marks := [91, 82, 87, 84, 79, 95, 96, 97, 88, 92]; marks[i] != marks[j]
  {
    if j < 5 {} else if i < 5 {} else {}
  }

  lemma MagiciteKeysDiffer(i: nat, j: nat)
    requires i < j < |MAGICITE.keys|
    ensures MAGICITE.keys[i] != MAGICITE.keys[j]
  {
    MagiciteKey(i);
    MagiciteKey(j);
    MarksDistinct(i, j);
  }

  lemma MagiciteValid()
    ensures MAGICITE.Valid()
  {
    forall k | k in MAGICITE.keys
      ensures k != "" && forall i | 0 <= i < |k| :: k[i] != ':' && k[i] != '\n'
    {
      var n :| 0 <= n < |MAGICITE.keys| && MAGICITE.keys[n] == k;
      MagiciteKey(n);
    }
    forall i, j | 0 <= i < j < |MAGICITE.keys|
      ensures MAGICITE.keys[i] != MAGICITE.keys[j]
    {
      MagiciteKeysDiffer(i, j);
    }
  }
}
