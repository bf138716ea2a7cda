/** The handle store of internal/agent: opaque handles, live state, allocation order, aliases. */
module Store {
  import opened Text
  import opened Decimal
  import opened Sorting

  type Handle = string

  /** Handle number n of a store: the prefix, a dash and the number. */
  function Name(prefix: string, n: nat): Handle {
    prefix + "-" + Itoa(n)
  }

  lemma NameInjective(prefix: string, a: nat, b: nat)
    requires Name(prefix, a) == Name(prefix, b)
    ensures a == b
  {
    var head := prefix + "-";
    assert Name(prefix, a)[|head|..] == Itoa(a) && Name(prefix, b)[|head|..] == Itoa(b);
    ItoaInjective(a, b);
  }

  const COUNTER_LIMIT: nat := 0x1_0000_0000_0000_0000

  /** Where h is, or the length when it is nowhere. */
  function IndexOf(order: seq<Handle>, h: Handle): (i: nat)
    ensures i <= |order|
  {
    if order == [] || order[0] == h then 0 else 1 + IndexOf(order[1..], h)
  }

  lemma {:induction false} IndexOfFinds(order: seq<Handle>, h: Handle)
    ensures IndexOf(order, h) < |order| ==> order[IndexOf(order, h)] == h
    ensures IndexOf(order, h) == |order| ==> h !in order
    ensures h !in order[..IndexOf(order, h)]
  {
    if order != [] && order[0] != h {
      IndexOfFinds(order[1..], h);
      assert order[..IndexOf(order, h)] == [order[0]] + order[1..][..IndexOf(order[1..], h)];
    }
  }

  function RemoveAt<A>(s: seq<A>, i: nat): seq<A>
    requires i <= |s|
  {
    if i < |s| then s[..i] + s[i + 1..] else s
  }

  /** The handles without h, in their order. */
  function Without(order: seq<Handle>, h: Handle): seq<Handle> {
    RemoveAt(order, IndexOf(order, h))
  }

  lemma RemoveAtIndex<A>(s: seq<A>, i: nat, j: nat)
    requires i < |s| && j < |s| - 1
    ensures RemoveAt(s, i)[j] == s[if j < i then j else j + 1]
  {
  }

  lemma WithoutMembers(order: seq<Handle>, h: Handle)
    requires Distinct(order)
    ensures Distinct(Without(order, h))
    ensures forall x :: x in Without(order, h) <==> x in order && x != h
  {
    IndexOfFinds(order, h);
    var i := IndexOf(order, h);
    if i < |order| {
      RemoveAtDistinct(order, i);
      forall x
        ensures x in Without(order, h) <==> x in order && x != h
      {
        RemoveAtMember(order, i, x);
      }
    }
  }

  lemma RemoveAtDistinct(order: seq<Handle>, i: nat)
    requires Distinct(order) && i < |order|
    ensures Distinct(RemoveAt(order, i))
  {
    var rest := RemoveAt(order, i);
    forall j, k | 0 <= j < k < |rest|
      ensures rest[j] != rest[k]
    {
      RemoveAtIndex(order, i, j);
      RemoveAtIndex(order, i, k);
    }
  }

  lemma RemoveAtMember(order: seq<Handle>, i: nat, x: Handle)
    requires Distinct(order) && i < |order|
    ensures x in RemoveAt(order, i) <==> x in order && x != order[i]
  {
    var rest := RemoveAt(order, i);
    if x in rest {
      var j :| 0 <= j < |rest| && rest[j] == x;
      RemoveAtIndex(order, i, j);
    }
    if x in order && x != order[i] {
      var j :| 0 <= j < |order| && order[j] == x;
      RemoveAtIndex(order, i, if j < i then j else j - 1);
    }
  }

  /** order lists numbers, as handles, in increasing order of the number. */
  ghost predicate Numbered(prefix: string, order: seq<Handle>, numbers: seq<nat>, next: nat) {
    |numbers| == |order|
    && (forall i | 0 <= i < |order| :: order[i] == Name(prefix, numbers[i]) && numbers[i] < next)
    && forall i, j | 0 <= i < j < |numbers| :: numbers[i] < numbers[j]
  }

  lemma NumberedDistinct(prefix: string, order: seq<Handle>, numbers: seq<nat>, next: nat)
    requires Numbered(prefix, order, numbers, next)
    ensures Distinct(order)
  {
    forall i, j | 0 <= i < j < |order|
      ensures order[i] != order[j]
    {
      if order[i] == order[j] { NameInjective(prefix, numbers[i], numbers[j]); }
    }
  }

  lemma NumberedWithout(prefix: string, order: seq<Handle>, numbers: seq<nat>, next: nat, i: nat)
    requires Numbered(prefix, order, numbers, next) && i < |order|
    ensures Numbered(prefix, RemoveAt(order, i), RemoveAt(numbers, i), next)
  {
    forall j | 0 <= j < |order| - 1
      ensures RemoveAt(order, i)[j] == order[if j < i then j else j + 1]
      ensures RemoveAt(numbers, i)[j] == numbers[if j < i then j else j + 1]
    {
      RemoveAtIndex(order, i, j);
      RemoveAtIndex(numbers, i, j);
    }
  }

  ghost predicate Lists(order: seq<Handle>, live: set<Handle>) {
    forall h :: h in order <==> h in live
  }

  /** Every handle ever issued has a number below the counter. */
  ghost predicate AllBelow(prefix: string, issued: set<Handle>, next: nat) {
    forall h | h in issued :: exists n :: 0 <= n < next && h == Name(prefix, n)
  }

  /** Every alias names a live handle, and no alias is the name of another live handle. */
  ghost predicate AliasesOk(live: set<Handle>, aliases: map<string, Handle>) {
    forall a | a in aliases :: aliases[a] in live && (a in live ==> a == aliases[a])
  }

  function Unaliased(aliases: map<string, Handle>, h: Handle): map<string, Handle> {
    map a | a in aliases && aliases[a] != h :: aliases[a]
  }

  ghost predicate Sound(prefix: string, next: nat, order: seq<Handle>, numbers: seq<nat>, live: set<Handle>,
                        aliases: map<string, Handle>, issued: set<Handle>)
  {
    Numbered(prefix, order, numbers, next) && Lists(order, live) && live <= issued && AllBelow(prefix, issued, next)
    && AliasesOk(live, aliases)
  }

  lemma SoundWithout(prefix: string, next: nat, order: seq<Handle>, numbers: seq<nat>, live: set<Handle>,
                     aliases: map<string, Handle>, issued: set<Handle>, h: Handle)
    requires Sound(prefix, next, order, numbers, live, aliases, issued) && h in live
    ensures IndexOf(order, h) < |numbers|
    ensures Sound(prefix, next, Without(order, h), RemoveAt(numbers, IndexOf(order, h)), live - {h},
                  Unaliased(aliases, h), issued)
  {
    NumberedDistinct(prefix, order, numbers, next);
    ForgetKeeps(order, live, aliases, h);
    IndexOfFinds(order, h);
    NumberedWithout(prefix, order, numbers, next, IndexOf(order, h));
  }

  /** The counter may move on without issuing a handle; what lies at or above it was never issued. */
  lemma SoundLater(prefix: string, next: nat, later: nat, order: seq<Handle>, numbers: seq<nat>, live: set<Handle>,
                   aliases: map<string, Handle>, issued: set<Handle>)
    requires Sound(prefix, next, order, numbers, live, aliases, issued) && next <= later
    ensures Sound(prefix, later, order, numbers, live, aliases, issued)
    ensures next < later ==> Name(prefix, later - 1) !in issued && forall n | n in numbers :: n < later - 1
  {
    if next < later && Name(prefix, later - 1) in issued {
      var m :| 0 <= m < next && Name(prefix, later - 1) == Name(prefix, m);
      NameInjective(prefix, later - 1, m);
    }
    forall h | h in issued
      ensures exists n :: 0 <= n < later && h == Name(prefix, n)
    {
      var n :| 0 <= n < next && h == Name(prefix, n);
      assert 0 <= n < later;
    }
  }

  lemma ForgetKeeps(order: seq<Handle>, live: set<Handle>, aliases: map<string, Handle>, h: Handle)
    requires Distinct(order) && Lists(order, live) && AliasesOk(live, aliases)
    ensures Lists(Without(order, h), live - {h}) && AliasesOk(live - {h}, Unaliased(aliases, h))
    ensures h !in live ==> Without(order, h) == order && Unaliased(aliases, h) == aliases
  {
    WithoutMembers(order, h);
    IndexOfFinds(order, h);
  }

  /** Every counter value from a up to b names a live handle or an alias. */
  ghost predicate Taken(prefix: string, live: set<Handle>, bound: set<string>, a: nat, b: nat) {
    forall n: nat | a <= n < b :: Name(prefix, n) in live || Name(prefix, n) in bound
  }

  /** Takes the first counter value whose name is neither live nor an alias; there is none only when the
      counter is exhausted. */
  method Allocate<T>(prefix: string, next: nat, states: map<Handle, T>, aliases: map<string, Handle>)
    returns (handle: Option<Handle>, after: nat)
    requires next <= COUNTER_LIMIT
    ensures next <= after <= COUNTER_LIMIT
    ensures handle.None? ==>
              after == COUNTER_LIMIT && Taken(prefix, states.Keys, aliases.Keys, next, COUNTER_LIMIT)
    ensures handle.Some? ==>
              next < after && handle.value == Name(prefix, after - 1)
              && handle.value !in states && handle.value !in aliases
              && Taken(prefix, states.Keys, aliases.Keys, next, after - 1)
  {
    after := next;
    while true
      invariant next <= after <= COUNTER_LIMIT && Taken(prefix, states.Keys, aliases.Keys, next, after)
      decreases COUNTER_LIMIT - after
    {
      if after == COUNTER_LIMIT { return None, after; }
      var candidate := Name(prefix, after);
      after := after + 1;
      if candidate in states { continue; }
      if candidate in aliases { continue; }
      return Some(candidate), after;
    }
  }

  class Store<T> {
    const prefix: string
    var next: nat
    var states: map<Handle, T>
    var order: seq<Handle>
    var aliases: map<string, Handle>

    // history: the numbers of the live handles in order, and every handle ever issued
    ghost var numbers: seq<nat>
    ghost var issued: set<Handle>

    ghost predicate Valid()
      reads this
    {
      next <= COUNTER_LIMIT && Sound(prefix, next, order, numbers, states.Keys, aliases, issued)
    }

    constructor (prefix: string)
      ensures Valid() && this.prefix == prefix && next == 1
      ensures states == map[] && order == [] && aliases == map[] && issued == {}
    {
      this.prefix := prefix;
      next, states, order, aliases, numbers, issued := 1, map[], [], map[], [], {};
    }

    /** Stores state under a handle never used before, not even by a deleted session or as an
        alias; fails only when the counter is exhausted. */
    method Add(state: T) returns (handle: Option<Handle>)
      requires Valid()
      modifies this
      ensures Valid() && aliases == old(aliases)
      ensures handle.None? ==>
        next == COUNTER_LIMIT && states == old(states) && order == old(order) && issued == old(issued)
        && Taken(prefix, old(states.Keys), aliases.Keys, old(next), COUNTER_LIMIT)
      ensures handle.Some? ==>
        old(next) < next && handle.value == Name(prefix, next - 1)
        && Taken(prefix, old(states.Keys), aliases.Keys, old(next), next - 1)
      ensures handle.Some? ==>
        handle.value !in old(issued) && handle.value !in old(states) && handle.value !in old(aliases)
        && states == old(states)[handle.value := state] && order == old(order) + [handle.value]
        && issued == old(issued) + {handle.value}
    {
      ghost var before := next;
      handle, next := Allocate(prefix, next, states, aliases);
      SoundLater(prefix, before, next, order, numbers, states.Keys, aliases, issued);
      if handle.Some? { Insert(handle.value, next - 1, state); }
    }

    method Insert(handle: Handle, ghost counter: nat, state: T)
      requires Valid() && handle == Name(prefix, counter) && counter + 1 == next
      requires handle !in issued && handle !in aliases
      requires forall n | n in numbers :: n < counter
      modifies this`states, this`order, this`numbers, this`issued
      ensures Valid() && states == old(states)[handle := state] && order == old(order) + [handle]
      ensures issued == old(issued) + {handle}
    {
      states := states[handle := state];
      order := order + [handle];
      numbers := numbers + [counter];
      issued := issued + {handle};
    }

    method Get(handle: Handle) returns (state: Option<T>)
      ensures state == if handle in states then Some(states[handle]) else None
    {
      if handle !in states { return None; }
      return Some(states[handle]);
    }

    method Update(handle: Handle, f: T -> T) returns (ok: bool)
      requires Valid()
      modifies this`states
      ensures Valid() && ok == (handle in old(states))
      ensures states == if ok then old(states)[handle := f(old(states)[handle])] else old(states)
    {
      if handle !in states { return false; }
      states := states[handle := f(states[handle])];
      return true;
    }

    /** Forgets a handle with all its aliases; the others keep their order. */
    method Delete(handle: Handle) returns (state: Option<T>)
      requires Valid()
      modifies this`states, this`order, this`aliases, this`numbers
      ensures Valid() && state == (if handle in old(states) then Some(old(states)[handle]) else None)
      ensures states == old(states) - {handle} && order == Without(old(order), handle)
      ensures aliases == Unaliased(old(aliases), handle)
    {
      if handle !in states {
        NumberedDistinct(prefix, order, numbers, next);
        ForgetKeeps(order, states.Keys, aliases, handle);
        assert states - {handle} == states;
        return None;
      }
      state := Some(states[handle]);
      SoundWithout(prefix, next, order, numbers, states.Keys, aliases, issued, handle);
      var left := Shift(order, handle);
      var live, bound := states - {handle}, Unaliased(aliases, handle);
      assert live.Keys == states.Keys - {handle};
      Keep(live, left, bound, RemoveAt(numbers, IndexOf(order, handle)));
    }

    /** What is left after a handle was forgotten. */
    method Keep(live: map<Handle, T>, left: seq<Handle>, bound: map<string, Handle>, ghost kept: seq<nat>)
      requires next <= COUNTER_LIMIT && Sound(prefix, next, left, kept, live.Keys, bound, issued)
      modifies this`states, this`order, this`aliases, this`numbers
      ensures Valid() && states == live && order == left && aliases == bound
    {
      states, aliases, order, numbers := live, bound, left, kept;
    }

    method Handles() returns (handles: seq<Handle>)
      requires Valid()
      ensures handles == order && Distinct(handles) && forall h :: h in handles <==> h in states
    {
      NumberedDistinct(prefix, order, numbers, next);
      return order;
    }

    /** Binds an alias to a live handle, unless it names something else already. */
    method Alias(alias: string, handle: Handle) returns (ok: bool)
      requires Valid()
      modifies this`aliases
      ensures Valid()
      ensures ok == (handle in states && if alias in old(aliases) then old(aliases)[alias] == handle
                                         else alias !in states || alias == handle)
      ensures aliases == if ok then old(aliases)[alias := handle] else old(aliases)
    {
      if handle !in states { return false; }
      if alias in aliases {
        assert aliases[alias] == handle ==> aliases[alias := handle] == aliases;
        return aliases[alias] == handle;
      }
      if alias in states && alias != handle { return false; }
      aliases := aliases[alias := handle];
      return true;
    }

    /** A live handle resolves to itself and an alias to its live target, whichever is looked up
        first. */
    method Resolve(key: string) returns (handle: Option<Handle>)
      requires Valid()
      ensures handle.Some? ==> handle.value in states
      ensures key in states ==> handle == Some(key)
      ensures key in aliases ==> handle == Some(aliases[key])
      ensures handle.None? <==> key !in states && key !in aliases
    {
      if key in states { return Some(key); }
      if key in aliases { return Some(aliases[key]); }
      return None;
    }
  }

  /** Shifts the entries after the first h one place down. */
  method Shift(order: seq<Handle>, h: Handle) returns (left: seq<Handle>)
    ensures left == Without(order, h)
  {
    for i := 0 to |order|
      invariant IndexOf(order, h) == i + IndexOf(order[i..], h)
    {
      assert order[i..][0] == order[i] && order[i..][1..] == order[i + 1..];
      if order[i] == h { return order[..i] + order[i + 1..]; }
    }
    return order;
  }
}
