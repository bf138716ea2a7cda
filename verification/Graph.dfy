/** The decomposition graph (internal/decomp/graph.go): children name the children they
    depend on; names that resolve to no child are ignored. */
module Graph {
  import opened Text
  import opened Sorting

  /** One child with the symbols its description declares. */
  datatype Child = Child(id: string, deps: seq<string>, offers: seq<string>, needs: seq<string>)

  /** The first child with this identifier. */
  function Resolve(children: seq<Child>, id: string): (r: Option<Child>)
    ensures r.Some? ==> r.value in children && r.value.id == id
    ensures r.None? ==> forall c | c in children :: c.id != id
  {
    if children == [] then None
    else if children[0].id == id then Some(children[0])
    else Resolve(children[1..], id)
  }

  predicate Known(children: seq<Child>, id: string) {
    Resolve(children, id).Some?
  }

  function Deps(children: seq<Child>, id: string): seq<string>
    requires Known(children, id)
  {
    Resolve(children, id).value.deps
  }

  function Ids(children: seq<Child>): set<string> {
    set c | c in children :: c.id
  }

  ghost predicate DistinctIds(children: seq<Child>) {
    forall i, j | 0 <= i < j < |children| :: children[i].id != children[j].id
  }

  lemma {:induction false} ResolveDistinct(children: seq<Child>, c: Child)
    requires DistinctIds(children) && c in children
    ensures Resolve(children, c.id) == Some(c)
  {
    if children[0] != c { ResolveDistinct(children[1..], c); }
  }

  // ------------------------------------------------------------ walks

  /** A walk along resolvable dependency edges; |p| - 1 edges. */
  ghost predicate IsWalk(children: seq<Child>, p: seq<string>) {
    p != [] && (forall i | 0 <= i < |p| :: Known(children, p[i]))
    && forall i | 0 <= i < |p| - 1 :: p[i + 1] in Deps(children, p[i])
  }

  ghost predicate IsWalkFromTo(children: seq<Child>, p: seq<string>, a: string, b: string) {
    IsWalk(children, p) && p[0] == a && p[|p| - 1] == b
  }

  ghost predicate Reaches(children: seq<Child>, a: string, b: string) {
    exists p :: IsWalkFromTo(children, p, a, b)
  }

  /** b is a direct or transitive dependency of child. */
  ghost predicate Above(children: seq<Child>, child: Child, b: string) {
    exists d :: d in child.deps && Reaches(children, d, b)
  }

  /** a reaches b through one or more edges. */
  ghost predicate ReachesStrictly(children: seq<Child>, a: string, b: string) {
    exists p :: IsWalkFromTo(children, p, a, b) && |p| >= 2
  }

  lemma AboveIsStrict(children: seq<Child>, child: Child, b: string)
    requires Resolve(children, child.id) == Some(child)
    ensures Above(children, child, b) <==> ReachesStrictly(children, child.id, b)
  {
    if Above(children, child, b) {
      var d :| d in child.deps && Reaches(children, d, b);
      var p :| IsWalkFromTo(children, p, d, b);
      WalkLonger(children, child.id, p, d, b);
    }
    if ReachesStrictly(children, child.id, b) {
      var p :| IsWalkFromTo(children, p, child.id, b) && |p| >= 2;
      WalkRest(children, p, b);
    }
  }

  lemma WalkLonger(children: seq<Child>, a: string, p: seq<string>, d: string, b: string)
    requires Known(children, a) && d in Deps(children, a) && IsWalkFromTo(children, p, d, b)
    ensures IsWalkFromTo(children, [a] + p, a, b)
  {
    var q := [a] + p;
    assert forall i | 0 < i < |q| :: q[i] == p[i - 1];
  }

  lemma WalkRest(children: seq<Child>, p: seq<string>, b: string)
    requires |p| >= 2 && IsWalkFromTo(children, p, p[0], b)
    ensures IsWalkFromTo(children, p[1..], p[1], b) && p[1] in Deps(children, p[0])
  {
  }

  lemma ReachesSelf(children: seq<Child>, a: string)
    requires Known(children, a)
    ensures Reaches(children, a, a)
  {
    assert IsWalkFromTo(children, [a], a, a);
  }

  lemma ReachesStep(children: seq<Child>, a: string, d: string, b: string)
    requires Known(children, a) && d in Deps(children, a) && Reaches(children, d, b)
    ensures Reaches(children, a, b) && ReachesStrictly(children, a, b)
  {
    var p :| IsWalkFromTo(children, p, d, b);
    WalkLonger(children, a, p, d, b);
  }

  /** Every known dependency of a member of inner lies in outer. */
  ghost predicate Closed(children: seq<Child>, inner: set<string>, outer: set<string>) {
    forall n | n in inner ::
      Known(children, n) && forall d | d in Deps(children, n) && Known(children, d) :: d in outer
  }

  lemma {:induction false} ClosedTraps(children: seq<Child>, s: set<string>, p: seq<string>)
    requires Closed(children, s, s) && IsWalk(children, p) && p[0] in s
    ensures p[|p| - 1] in s
  {
    if |p| > 1 {
      assert p[1] in Deps(children, p[0]);
      assert IsWalk(children, p[1..]);
      ClosedTraps(children, s, p[1..]);
    }
  }

  method Find(children: seq<Child>, id: string) returns (r: Option<Child>)
    ensures r == Resolve(children, id)
  {
    for n := 0 to |children|
      invariant Resolve(children, id) == Resolve(children[n..], id)
    {
      if children[n].id == id { return Some(children[n]); }
      assert children[n..][1..] == children[n + 1..];
    }
    return None;
  }

  // ------------------------------------------------------------ InCycle

  /** Depth-first search for one child, with the visited set its recursive calls share. */
  class CycleSearch {
    const children: seq<Child>
    const target: string
    var visited: set<string>

    constructor (children: seq<Child>, target: string)
      ensures this.children == children && this.target == target && visited == {}
    {
      this.children, this.target, this.visited := children, target, {};
    }

    method ReachesChild(id: string) returns (found: bool)
      requires visited <= Ids(children) && target !in visited
      modifies this
      ensures old(visited) <= visited <= Ids(children) && target !in visited
      ensures found ==> Reaches(children, id, target)
      ensures !found && Known(children, id) ==> id in visited
      ensures !found ==> Closed(children, visited - old(visited), visited)
      decreases Ids(children) - visited
    {
      var ancestor := Find(children, id);
      if ancestor.None? { return false; }
      if ancestor.value.id == target {
        ReachesSelf(children, id);
        return true;
      }
      if id in visited { return false; }
      visited := visited + {id};
      var deps := ancestor.value.deps;
      for n := 0 to |deps|
        invariant old(visited) + {id} <= visited <= Ids(children) && target !in visited
        invariant forall i | 0 <= i < n && Known(children, deps[i]) :: deps[i] in visited
        invariant Closed(children, visited - old(visited) - {id}, visited)
      {
        var reached := ReachesChild(deps[n]);
        if reached {
          ReachesStep(children, id, deps[n], target);
          return true;
        }
      }
      return false;
    }
  }

  /** A child is in a cycle exactly when it is its own transitive dependency. */
  method InCycle(children: seq<Child>, child: Child) returns (found: bool)
    ensures found <==> Above(children, child, child.id)
  {
    var search := new CycleSearch(children, child.id);
    for n := 0 to |child.deps|
      invariant search.children == children && search.target == child.id
      invariant search.visited <= Ids(children) && child.id !in search.visited
      invariant forall i | 0 <= i < n && Known(children, child.deps[i]) :: child.deps[i] in search.visited
      invariant Closed(children, search.visited, search.visited)
    {
      ghost var before := search.visited;
      found := search.ReachesChild(child.deps[n]);
      if found { return true; }
      assert search.visited == before + (search.visited - before);
    }
    forall d, p | d in child.deps && IsWalkFromTo(children, p, d, child.id)
      ensures false
    {
      ClosedTraps(children, search.visited, p);
    }
    return false;
  }

  // ------------------------------------------------------------ AncestorProvides

  /** symbol is declared by one of these children. */
  ghost predicate OfferedBy(children: seq<Child>, ids: set<string>, symbol: string) {
    exists n :: n in ids && Known(children, n) && symbol in Resolve(children, n).value.offers
  }

  lemma OfferedByMore(children: seq<Child>, ids: set<string>, id: string, symbol: string)
    requires Known(children, id)
    ensures OfferedBy(children, ids + {id}, symbol)
            <==> OfferedBy(children, ids, symbol) || symbol in Resolve(children, id).value.offers
  {
    if OfferedBy(children, ids, symbol) {
      var n :| n in ids && Known(children, n) && symbol in Resolve(children, n).value.offers;
      assert n in ids + {id};
    }
  }

  /** Depth-first collection with the visited sets its recursive calls share. */
  class OfferSearch {
    const children: seq<Child>
    var seenChildren: set<string>
    var seenSymbols: set<string>
    var collected: seq<string>

    constructor (children: seq<Child>)
      ensures this.children == children && seenChildren == {} && Valid()
    {
      this.children, seenChildren, seenSymbols, collected := children, {}, {}, [];
    }

    ghost predicate Valid()
      reads this
    {
      seenChildren <= Ids(children) && Distinct(collected)
      && (forall s :: s in seenSymbols <==> s in collected)
      && forall s :: s in collected <==> OfferedBy(children, seenChildren, s)
    }

    method Declare(symbols: seq<string>)
      requires Distinct(collected) && forall s :: s in seenSymbols <==> s in collected
      modifies this`seenSymbols, this`collected
      ensures Distinct(collected) && forall s :: s in seenSymbols <==> s in collected
      ensures old(collected) <= collected
      ensures forall s :: s in collected <==> s in old(collected) || s in symbols
    {
      for n := 0 to |symbols|
        invariant Distinct(collected) && forall s :: s in seenSymbols <==> s in collected
        invariant old(collected) <= collected
        invariant forall s :: s in collected <==> s in old(collected) || s in symbols[..n]
      {
        if symbols[n] !in seenSymbols {
          seenSymbols := seenSymbols + {symbols[n]};
          collected := collected + [symbols[n]];
        }
        assert symbols[..n + 1] == symbols[..n] + [symbols[n]];
      }
      assert symbols[..|symbols|] == symbols;
    }

    method Visit(id: string)
      requires Valid()
      modifies this
      ensures Valid() && old(seenChildren) <= seenChildren && old(collected) <= collected
      ensures Known(children, id) ==> id in seenChildren
      ensures Closed(children, seenChildren - old(seenChildren), seenChildren)
      ensures forall n | n in seenChildren - old(seenChildren) :: Reaches(children, id, n)
      decreases Ids(children) - seenChildren
    {
      if id in seenChildren { return; }
      var ancestor := Find(children, id);
      if ancestor.None? { return; }
      seenChildren := seenChildren + {id};
      Declare(ancestor.value.offers);
      forall s
        ensures s in collected <==> OfferedBy(children, seenChildren, s)
      {
        OfferedByMore(children, old(seenChildren), id, s);
      }
      ReachesSelf(children, id);
      var deps := ancestor.value.deps;
      for n := 0 to |deps|
        invariant Valid() && old(seenChildren) + {id} <= seenChildren && old(collected) <= collected
        invariant forall i | 0 <= i < n && Known(children, deps[i]) :: deps[i] in seenChildren
        invariant Closed(children, seenChildren - old(seenChildren) - {id}, seenChildren)
        invariant forall m | m in seenChildren - old(seenChildren) :: Reaches(children, id, m)
      {
        ghost var before := seenChildren;
        Visit(deps[n]);
        forall m | m in seenChildren - before
          ensures Reaches(children, id, m)
        {
          ReachesStep(children, id, deps[n], m);
        }
      }
    }
  }

  /** Without duplicates, exactly the symbols declared by a transitive dependency. */
  method AncestorProvides(children: seq<Child>, child: Child) returns (symbols: seq<string>)
    ensures Distinct(symbols)
    ensures forall s :: s in symbols
              <==> exists b :: Above(children, child, b) && Known(children, b) && s in Resolve(children, b).value.offers
  {
    var search := new OfferSearch(children);
    for n := 0 to |child.deps|
      invariant search.children == children && search.Valid()
      invariant forall i | 0 <= i < n && Known(children, child.deps[i]) :: child.deps[i] in search.seenChildren
      invariant Closed(children, search.seenChildren, search.seenChildren)
      invariant forall m | m in search.seenChildren :: Above(children, child, m)
    {
      ghost var before := search.seenChildren;
      search.Visit(child.deps[n]);
      assert search.seenChildren == before + (search.seenChildren - before);
    }
    symbols := search.collected;
    forall b | Above(children, child, b)
      ensures b in search.seenChildren
    {
      var d :| d in child.deps && Reaches(children, d, b);
      var p :| IsWalkFromTo(children, p, d, b);
      ClosedTraps(children, search.seenChildren, p);
    }
  }

  // ------------------------------------------------------------ Depth

  function Max(a: nat, b: nat): nat {
    if a > b then a else b
  }

  /** Longest dependency chain below the given names: 0 when none resolves. Names already
      being visited count as 0. */
  function DepsDepth(children: seq<Child>, deps: seq<string>, visiting: set<string>): nat
    decreases Ids(children) - visiting, 1, |deps|
  {
    if deps == [] then 0
    else
      var rest := DepsDepth(children, deps[1..], visiting);
      match Resolve(children, deps[0])
      case None => rest
      case Some(c) => Max(1 + VisitDepth(children, c, visiting), rest)
  }

  function VisitDepth(children: seq<Child>, current: Child, visiting: set<string>): nat
    requires current in children
    decreases Ids(children) - visiting, 0
  {
    if current.id in visiting then 0
    else DepsDepth(children, current.deps, visiting + {current.id})
  }

  /** Depth of a child, known or not. */
  function DepthOf(children: seq<Child>, child: Child): nat {
    DepsDepth(children, child.deps, {child.id})
  }

  class DepthSearch {
    const children: seq<Child>
    var visiting: set<string>

    constructor (children: seq<Child>)
      ensures this.children == children && visiting == {}
    {
      this.children, visiting := children, {};
    }

    method Depth(current: Child) returns (depth: nat)
      modifies this
      ensures visiting == old(visiting)
      ensures depth == if current.id in visiting then 0
                       else DepsDepth(children, current.deps, visiting + {current.id})
      decreases Ids(children) + {current.id} - visiting
    {
      if current.id in visiting { return 0; }
      visiting := visiting + {current.id};
      var resolvable, maximum := false, 0;
      var deps := current.deps;
      for n := 0 to |deps|
        invariant visiting == old(visiting) + {current.id} && (!resolvable ==> maximum == 0)
        invariant DepsDepth(children, deps, visiting)
                  == Max(if resolvable then maximum + 1 else 0, DepsDepth(children, deps[n..], visiting))
      {
        var dependency := Find(children, deps[n]);
        ghost var rest := DepsDepth(children, deps[n + 1..], visiting);
        assert deps[n..][0] == deps[n] && deps[n..][1..] == deps[n + 1..];
        assert DepsDepth(children, deps[n..], visiting)
               == if dependency.None? then rest else Max(1 + VisitDepth(children, dependency.value, visiting), rest);
        if dependency.None? { continue; }
        resolvable := true;
        var value := Depth(dependency.value);
        assert value == VisitDepth(children, dependency.value, visiting);
        if value > maximum { maximum := value; }
      }
      visiting := visiting - {current.id};
      if !resolvable { return 0; }
      return maximum + 1;
    }
  }

  method Depth(children: seq<Child>, child: Child) returns (depth: nat)
    ensures depth == DepthOf(children, child)
  {
    var search := new DepthSearch(children);
    depth := search.Depth(child);
    assert {} + {child.id} == {child.id};
  }

  ghost predicate Acyclic(children: seq<Child>) {
    forall a :: !ReachesStrictly(children, a, a)
  }

  /** Depth d from id: some walk of d edges starts there and none is longer. */
  ghost predicate LongestFrom(children: seq<Child>, id: string, d: nat) {
    (exists p :: IsWalk(children, p) && p[0] == id && |p| == d + 1)
    && forall p | IsWalk(children, p) && p[0] == id :: |p| <= d + 1
  }

  lemma StrictTrans(children: seq<Child>, a: string, b: string, d: string)
    requires a == b || ReachesStrictly(children, a, b)
    requires Known(children, b) && d in Deps(children, b) && Known(children, d)
    ensures ReachesStrictly(children, a, d)
  {
    if a == b {
      assert IsWalkFromTo(children, [a, d], a, d);
    } else {
      var p :| IsWalkFromTo(children, p, a, b) && |p| >= 2;
      assert IsWalkFromTo(children, p + [d], a, d);
    }
  }

  /** On an acyclic graph the visiting set never cuts a walk short. */
  lemma {:induction false} VisitDepthLongest(children: seq<Child>, c: Child, visiting: set<string>)
    requires Acyclic(children) && Resolve(children, c.id) == Some(c)
    requires forall v | v in visiting :: ReachesStrictly(children, v, c.id)
    ensures LongestFrom(children, c.id, VisitDepth(children, c, visiting))
    decreases Ids(children) - visiting, 0
  {
    assert c.id !in visiting;
    var inner := visiting + {c.id};
    forall v, d | v in inner && d in c.deps && Known(children, d)
      ensures ReachesStrictly(children, v, d)
    {
      StrictTrans(children, v, c.id, d);
    }
    DepsDepthLongest(children, c.deps, inner);
    OneLonger(children, c, DepsDepth(children, c.deps, inner));
  }

  /** A walk from c is c followed by a walk from one of its dependencies. */
  lemma OneLonger(children: seq<Child>, c: Child, m: nat)
    requires Resolve(children, c.id) == Some(c)
    requires m > 0 ==> exists p :: IsWalk(children, p) && p[0] in c.deps && |p| == m
    requires forall p | IsWalk(children, p) && p[0] in c.deps :: |p| <= m
    ensures LongestFrom(children, c.id, m)
  {
    if m == 0 {
      assert IsWalk(children, [c.id]);
    } else {
      var p :| IsWalk(children, p) && p[0] in c.deps && |p| == m;
      WalkCons(children, c, p);
    }
    forall p | IsWalk(children, p) && p[0] == c.id
      ensures |p| <= m + 1
    {
      if |p| > 1 { WalkTail(children, c, p); }
    }
  }

  lemma WalkCons(children: seq<Child>, c: Child, p: seq<string>)
    requires Resolve(children, c.id) == Some(c) && IsWalk(children, p) && p[0] in c.deps
    ensures IsWalk(children, [c.id] + p)
  {
  }

  lemma WalkTail(children: seq<Child>, c: Child, p: seq<string>)
    requires Resolve(children, c.id) == Some(c) && IsWalk(children, p) && p[0] == c.id && |p| > 1
    ensures IsWalk(children, p[1..]) && p[1] in c.deps
  {
  }

  lemma {:induction false} DepsDepthLongest(children: seq<Child>, deps: seq<string>, visiting: set<string>)
    requires Acyclic(children)
    requires forall v, d | v in visiting && d in deps && Known(children, d) :: ReachesStrictly(children, v, d)
    ensures var m := DepsDepth(children, deps, visiting);
            (m > 0 ==> exists p :: IsWalk(children, p) && p[0] in deps && |p| == m)
            && forall p | IsWalk(children, p) && p[0] in deps :: |p| <= m
    decreases Ids(children) - visiting, 1, |deps|
  {
    if deps != [] {
      DepsDepthLongest(children, deps[1..], visiting);
      var m, rest := DepsDepth(children, deps, visiting), DepsDepth(children, deps[1..], visiting);
      match Resolve(children, deps[0])
      case None =>
        forall p | IsWalk(children, p) && p[0] in deps
          ensures |p| <= m
        {
          assert p[0] in deps[1..];
        }
      case Some(c) =>
        VisitDepthLongest(children, c, visiting);
        var d := VisitDepth(children, c, visiting);
        assert m == Max(1 + d, rest);
        forall p | IsWalk(children, p) && p[0] in deps
          ensures |p| <= m
        {
          if p[0] != deps[0] { assert p[0] in deps[1..]; }
        }
    }
  }

  /** On an acyclic graph with distinct identifiers, depth is the number of edges of the
      longest resolvable dependency path. */
  lemma DepthIsLongestPath(children: seq<Child>, child: Child)
    requires Acyclic(children) && DistinctIds(children) && child in children
    ensures LongestFrom(children, child.id, DepthOf(children, child))
  {
    ResolveDistinct(children, child);
    VisitDepthLongest(children, child, {});
    assert {} + {child.id} == {child.id};
  }

  /** Every child is strictly deeper than each child it depends on. */
  ghost predicate DependenciesShallower(children: seq<Child>) {
    forall c, d | c in children && d in children && d.id in c.deps :: DepthOf(children, d) < DepthOf(children, c)
  }

  lemma AcyclicOrders(children: seq<Child>, c: Child, d: Child)
    requires Acyclic(children) && DistinctIds(children) && c in children && d in children && d.id in c.deps
    ensures DepthOf(children, d) < DepthOf(children, c)
  {
    ResolveDistinct(children, c);
    DepthIsLongestPath(children, c);
    DepthIsLongestPath(children, d);
    var m := DepthOf(children, d);
    var p :| IsWalk(children, p) && p[0] == d.id && |p| == m + 1;
    WalkFrom(children, c, p);
    assert |[c.id] + p| <= DepthOf(children, c) + 1;
  }

  lemma WalkFrom(children: seq<Child>, c: Child, p: seq<string>)
    requires DistinctIds(children) && c in children && IsWalk(children, p) && p[0] in c.deps
    ensures IsWalk(children, [c.id] + p) && ([c.id] + p)[0] == c.id
  {
    var q := [c.id] + p;
    ResolveDistinct(children, c);
    assert forall i | 0 < i < |q| :: q[i] == p[i - 1];
  }

  /** With distinct identifiers, depths order every dependency exactly on acyclic graphs. */
  lemma DepthsOrderIffAcyclic(children: seq<Child>)
    requires DistinctIds(children)
    ensures DependenciesShallower(children) <==> Acyclic(children)
  {
    if Acyclic(children) {
      forall c, d | c in children && d in children && d.id in c.deps
        ensures DepthOf(children, d) < DepthOf(children, c)
      {
        AcyclicOrders(children, c, d);
      }
    }
    if DependenciesShallower(children) {
      forall a, p | IsWalkFromTo(children, p, a, a) && |p| >= 2
        ensures false
      {
        WalkDescends(children, p);
      }
    }
  }

  lemma {:induction false} WalkDescends(children: seq<Child>, p: seq<string>)
    requires DependenciesShallower(children) && IsWalk(children, p) && |p| >= 2
    ensures DepthOf(children, Resolve(children, p[|p| - 1]).value) < DepthOf(children, Resolve(children, p[0]).value)
  {
    var a, b := Resolve(children, p[0]).value, Resolve(children, p[1]).value;
    assert b.id in a.deps;
    if |p| > 2 {
      assert IsWalk(children, p[1..]);
      WalkDescends(children, p[1..]);
    }
  }

  // ------------------------------------------------------------ Waves

  /** How many of some children have this depth in the whole graph. */
  function CountAt(children: seq<Child>, some: seq<Child>, depth: nat): nat {
    if some == [] then 0
    else CountAt(children, some[..|some| - 1], depth)
         + if DepthOf(children, some[|some| - 1]) == depth then 1 else 0
  }

  function Sum(s: seq<nat>): nat {
    if s == [] then 0 else s[0] + Sum(s[1..])
  }

  lemma {:induction false} SumAppend(a: seq<nat>, b: seq<nat>)
    ensures Sum(a + b) == Sum(a) + Sum(b)
  {
    if a == [] {
      assert a + b == b;
    } else {
      SumAppend(a[1..], b);
      assert (a + b)[1..] == a[1..] + b;
    }
  }

  lemma {:induction false} SumUpdate(s: seq<nat>, i: nat, v: nat)
    requires i < |s|
    ensures Sum(s[i := v]) == Sum(s) - s[i] + v
  {
    if i > 0 {
      SumUpdate(s[1..], i - 1, v);
      assert s[i := v][1..] == s[1..][i - 1 := v];
    } else {
      assert s[i := v][1..] == s[1..];
    }
  }

  /** waves counts some children by depth. */
  ghost predicate Tally(children: seq<Child>, some: seq<Child>, waves: seq<nat>) {
    (forall d | 0 <= d < |waves| :: waves[d] == CountAt(children, some, d))
    && (forall c | c in some :: DepthOf(children, c) < |waves|)
    && Sum(waves) == |some|
  }

  lemma {:induction false} CountAtNone(children: seq<Child>, some: seq<Child>, depth: nat)
    requires forall c | c in some :: DepthOf(children, c) != depth
    ensures CountAt(children, some, depth) == 0
  {
    if some != [] {
      assert forall c | c in some[..|some| - 1] :: c in some;
      CountAtNone(children, some[..|some| - 1], depth);
    }
  }

  lemma TallyGrow(children: seq<Child>, some: seq<Child>, waves: seq<nat>)
    requires Tally(children, some, waves)
    ensures Tally(children, some, waves + [0])
  {
    CountAtNone(children, some, |waves|);
    SumAppend(waves, [0]);
  }

  lemma TallyAdd(children: seq<Child>, some: seq<Child>, c: Child, waves: seq<nat>)
    requires Tally(children, some, waves) && DepthOf(children, c) < |waves|
    ensures var d := DepthOf(children, c); Tally(children, some + [c], waves[d := waves[d] + 1])
  {
    var d := DepthOf(children, c);
    assert (some + [c])[..|some|] == some;
    SumUpdate(waves, d, waves[d] + 1);
  }

  /** One more than the greatest depth among some children; 0 when there are none. */
  function WaveCount(children: seq<Child>, some: seq<Child>): nat {
    if some == [] then 0
    else Max(WaveCount(children, some[..|some| - 1]), DepthOf(children, some[|some| - 1]) + 1)
  }

  /** Wave d holds the children of depth d. */
  function WaveWidths(children: seq<Child>): seq<nat> {
    seq(WaveCount(children, children), d requires 0 <= d => CountAt(children, children, d))
  }

  /** Wave widths; every child is in exactly one wave. */
  method Waves(children: seq<Child>) returns (waves: seq<nat>)
    ensures waves == WaveWidths(children)
    ensures Sum(waves) == |children|
  {
    waves := [];
    for n := 0 to |children|
      invariant Tally(children, children[..n], waves) && |waves| == WaveCount(children, children[..n])
    {
      var depth := Depth(children, children[n]);
      waves := Extend(children, children[..n], waves, depth);
      TallyAdd(children, children[..n], children[n], waves);
      waves := waves[depth := waves[depth] + 1];
      assert children[..n + 1] == children[..n] + [children[n]];
    }
    assert children[..|children|] == children;
  }

  method Extend(ghost children: seq<Child>, ghost some: seq<Child>, waves: seq<nat>, depth: nat)
    returns (longer: seq<nat>)
    requires Tally(children, some, waves)
    ensures Tally(children, some, longer) && |longer| == Max(|waves|, depth + 1)
  {
    longer := waves;
    while |longer| <= depth
      invariant Tally(children, some, longer)
      invariant |longer| == |waves| || |waves| < |longer| <= depth + 1
    {
      TallyGrow(children, some, longer);
      longer := longer + [0];
    }
  }

  lemma {:induction false} CountAtPositive(children: seq<Child>, some: seq<Child>, c: Child)
    requires c in some
    ensures CountAt(children, some, DepthOf(children, c)) > 0
  {
    if some[|some| - 1] != c { CountAtPositive(children, some[..|some| - 1], c); }
  }

  lemma {:induction false} WaveCountReached(children: seq<Child>, some: seq<Child>) returns (deepest: Child)
    requires some != []
    ensures deepest in some && WaveCount(children, some) == DepthOf(children, deepest) + 1
  {
    deepest := some[|some| - 1];
    if |some| > 1 {
      var other := WaveCountReached(children, some[..|some| - 1]);
      if DepthOf(children, other) > DepthOf(children, deepest) { deepest := other; }
    }
  }

  lemma {:induction false} LevelOccupied(children: seq<Child>, deepest: Child, d: nat)
    requires Acyclic(children) && DistinctIds(children) && deepest in children
    requires d <= DepthOf(children, deepest)
    ensures CountAt(children, children, d) > 0
    decreases DepthOf(children, deepest)
  {
    if d == DepthOf(children, deepest) {
      CountAtPositive(children, children, deepest);
    } else {
      var next := DeepestDependency(children, deepest);
      LevelOccupied(children, next, d);
    }
  }

  ghost predicate NoWaveEmpty(children: seq<Child>) {
    forall d | 0 <= d < |WaveWidths(children)| :: WaveWidths(children)[d] > 0
  }

  /** On an acyclic graph with distinct identifiers no wave is empty. */
  lemma NoEmptyWave(children: seq<Child>)
    requires Acyclic(children) && DistinctIds(children)
    ensures NoWaveEmpty(children)
  {
    if children != [] {
      var deepest := WaveCountReached(children, children);
      forall d | 0 <= d < |WaveWidths(children)|
        ensures WaveWidths(children)[d] > 0
      {
        LevelOccupied(children, deepest, d);
      }
    }
  }

  /** A child of positive depth has a dependency exactly one level up. */
  lemma DeepestDependency(children: seq<Child>, child: Child) returns (dep: Child)
    requires Acyclic(children) && DistinctIds(children) && child in children && DepthOf(children, child) > 0
    ensures dep in children && dep.id in child.deps && DepthOf(children, dep) == DepthOf(children, child) - 1
  {
    DepthIsLongestPath(children, child);
    ResolveDistinct(children, child);
    var p :| IsWalk(children, p) && p[0] == child.id && |p| == DepthOf(children, child) + 1;
    dep := Resolve(children, p[1]).value;
    assert IsWalk(children, p[1..]);
    DepthIsLongestPath(children, dep);
    DepthsOrderIffAcyclic(children);
  }

  // ------------------------------------------------------------ exactly when waves can be empty

  predicate Resolvable(children: seq<Child>, deps: seq<string>) {
    exists i :: 0 <= i < |deps| && Known(children, deps[i])
  }

  lemma {:induction false} DepsDepthZero(children: seq<Child>, deps: seq<string>, visiting: set<string>)
    ensures DepsDepth(children, deps, visiting) == 0 <==> !Resolvable(children, deps)
    decreases |deps|
  {
    if deps != [] {
      DepsDepthZero(children, deps[1..], visiting);
      if Resolvable(children, deps[1..]) {
        var i :| 0 <= i < |deps[1..]| && Known(children, deps[1..][i]);
        assert Known(children, deps[i + 1]);
      }
      if Resolvable(children, deps) && !Known(children, deps[0]) {
        var i :| 0 <= i < |deps| && Known(children, deps[i]);
        assert deps[1..][i - 1] == deps[i];
      }
    }
  }

  lemma {:induction false} WaveCountPositive(children: seq<Child>, some: seq<Child>)
    ensures WaveCount(children, some) > 0 <==> some != []
  {
  }

  /** On every graph, cyclic or not, the first wave is empty exactly when every child has a
      dependency that resolves. */
  lemma FirstWaveEmptyExactly(children: seq<Child>)
    requires children != []
    ensures |WaveWidths(children)| > 0
    ensures WaveWidths(children)[0] == 0 <==> forall c | c in children :: Resolvable(children, c.deps)
  {
    WaveCountPositive(children, children);
    forall c | c in children
      ensures DepthOf(children, c) == 0 <==> !Resolvable(children, c.deps)
    {
      DepsDepthZero(children, c.deps, {c.id});
    }
    if forall c | c in children :: Resolvable(children, c.deps) {
      CountAtNone(children, children, 0);
    } else {
      var c :| c in children && !Resolvable(children, c.deps);
      CountAtPositive(children, children, c);
    }
  }

  /** Some of the children, as a plan of its own. */
  ghost predicate SubPlan(sub: seq<Child>, children: seq<Child>) {
    DistinctIds(sub) && forall c | c in sub :: c in children
  }

  lemma SubPlanResolves(sub: seq<Child>, children: seq<Child>, id: string)
    requires DistinctIds(children) && SubPlan(sub, children) && Known(sub, id)
    ensures Resolve(children, id) == Resolve(sub, id)
  {
    var c := Resolve(sub, id).value;
    ResolveDistinct(children, c);
  }

  lemma SubPlanWalk(sub: seq<Child>, children: seq<Child>, p: seq<string>)
    requires DistinctIds(children) && SubPlan(sub, children) && IsWalk(sub, p)
    ensures IsWalk(children, p)
  {
    forall i | 0 <= i < |p|
      ensures Known(children, p[i]) && Deps(children, p[i]) == Deps(sub, p[i])
    {
      SubPlanResolves(sub, children, p[i]);
    }
  }

  lemma SubPlanAcyclic(sub: seq<Child>, children: seq<Child>)
    requires DistinctIds(children) && SubPlan(sub, children) && Acyclic(children)
    ensures Acyclic(sub)
  {
    forall a
      ensures ReachesStrictly(sub, a, a) ==> ReachesStrictly(children, a, a)
    {
      if ReachesStrictly(sub, a, a) {
        var p :| IsWalkFromTo(sub, p, a, a) && |p| >= 2;
        SubPlanWalk(sub, children, p);
        assert IsWalkFromTo(children, p, a, a);
      }
    }
  }

  /** The children with these identifiers. */
  function Restricted(children: seq<Child>, ids: seq<string>): seq<Child> {
    if children == [] then []
    else (if children[0].id in ids then [children[0]] else []) + Restricted(children[1..], ids)
  }

  lemma {:induction false} RestrictedMember(children: seq<Child>, ids: seq<string>, c: Child)
    ensures c in Restricted(children, ids) <==> c in children && c.id in ids
  {
    if children != [] { RestrictedMember(children[1..], ids, c); }
  }

  lemma {:induction false} RestrictedDistinct(children: seq<Child>, ids: seq<string>)
    requires DistinctIds(children)
    ensures DistinctIds(Restricted(children, ids))
  {
    if children != [] {
      var rest := Restricted(children[1..], ids);
      RestrictedDistinct(children[1..], ids);
      forall i | 0 <= i < |rest|
        ensures rest[i].id != children[0].id
      {
        RestrictedMember(children[1..], ids, rest[i]);
        assert rest[i] in children[1..];
      }
    }
  }

  /** The children of a cycle, taken as a plan, leave its first wave empty. */
  lemma CycleEmptiesWave(children: seq<Child>, p: seq<string>)
    requires DistinctIds(children) && IsWalk(children, p) && |p| >= 2 && p[0] == p[|p| - 1]
    ensures SubPlan(Restricted(children, p), children) && !NoWaveEmpty(Restricted(children, p))
  {
    var sub := Restricted(children, p);
    RestrictedDistinct(children, p);
    forall c
      ensures c in sub <==> c in children && c.id in p
    {
      RestrictedMember(children, p, c);
    }
    assert Resolve(children, p[0]).value in sub;
    forall c | c in sub
      ensures Resolvable(sub, c.deps)
    {
      CycleDependency(children, p, sub, c);
    }
    FirstWaveEmptyExactly(sub);
  }

  lemma CycleDependency(children: seq<Child>, p: seq<string>, sub: seq<Child>, c: Child)
    requires DistinctIds(children) && IsWalk(children, p) && |p| >= 2 && p[0] == p[|p| - 1]
    requires DistinctIds(sub) && forall x :: x in sub <==> x in children && x.id in p
    requires c in sub
    ensures Resolvable(sub, c.deps)
  {
    ResolveDistinct(children, c);
    var i :| 0 <= i < |p| && p[i] == c.id;
    var k := if i == |p| - 1 then 0 else i;
    assert p[k] == c.id && p[k + 1] in Deps(children, p[k]);
    var d := Resolve(children, p[k + 1]).value;
    ResolveDistinct(sub, d);
    var j :| 0 <= j < |c.deps| && c.deps[j] == p[k + 1];
    assert Known(sub, c.deps[j]);
  }

  /** A plan is acyclic exactly when neither it nor any part of it has an empty wave. */
  lemma AcyclicIffNoPartHasEmptyWave(children: seq<Child>)
    requires DistinctIds(children)
    ensures Acyclic(children) <==> forall sub | SubPlan(sub, children) :: NoWaveEmpty(sub)
  {
    if Acyclic(children) {
      forall sub | SubPlan(sub, children)
        ensures NoWaveEmpty(sub)
      {
        SubPlanAcyclic(sub, children);
        NoEmptyWave(sub);
      }
    } else {
      var a :| ReachesStrictly(children, a, a);
      var p :| IsWalkFromTo(children, p, a, a) && |p| >= 2;
      CycleEmptiesWave(children, p);
    }
  }

  /** A cycle alone decides nothing about the whole plan: here one child depends on itself, another
      on nothing, and no wave is empty. */
  lemma CyclicWithoutEmptyWave()
    ensures var g := [Child("a", ["a"], [], []), Child("b", [], [], [])];
            DistinctIds(g) && !Acyclic(g) && NoWaveEmpty(g)
  {
    var a, b := Child("a", ["a"], [], []), Child("b", [], [], []);
    var g := [a, b];
    assert Resolve(g, "a") == Some(a);
    var loop := ["a", "a"];
    assert Deps(g, "a") == ["a"] && "a" in Deps(g, "a");
    assert IsWalkFromTo(g, loop, "a", "a") && |loop| >= 2;
    assert ReachesStrictly(g, "a", "a");
    assert ["a"][1..] == [] && VisitDepth(g, a, {"a"}) == 0;
    assert DepthOf(g, a) == 1 && DepthOf(g, b) == 0;
    assert g[..1] == [a] && [a][..0] == [] && g[..|g| - 1] == [a];
    assert WaveCount(g, [a]) == 2 && WaveCount(g, g) == 2;
    CountAtPositive(g, g, a);
    CountAtPositive(g, g, b);
  }

  /** Without acyclicity waves can be empty: two children that depend on each other. */
  lemma CyclicWavesCounterexample()
    ensures var a, b := Child("a", ["b"], [], []), Child("b", ["a"], [], []);
            DistinctIds([a, b]) && |WaveWidths([a, b])| > 0 && WaveWidths([a, b])[0] == 0
  {
    var a, b := Child("a", ["b"], [], []), Child("b", ["a"], [], []);
    var g := [a, b];
    assert g[1..] == [b] && Resolve(g, "a") == Some(a) && Resolve(g, "b") == Some(b);
    assert ["a"][1..] == [] && ["b"][1..] == [];
    assert VisitDepth(g, a, {"a", "b"}) == 0 && VisitDepth(g, b, {"a", "b"}) == 0;
    assert {"a"} + {"b"} == {"a", "b"} && {"b"} + {"a"} == {"a", "b"};
    assert DepsDepth(g, ["a"], {"a", "b"}) == 1 && DepsDepth(g, ["b"], {"a", "b"}) == 1;
    assert VisitDepth(g, b, {"a"}) == 1 && VisitDepth(g, a, {"b"}) == 1;
    assert DepsDepth(g, ["b"], {"a"}) == 1 + VisitDepth(g, b, {"a"});
    assert DepsDepth(g, ["a"], {"b"}) == 1 + VisitDepth(g, a, {"b"});
    assert DepthOf(g, a) == 2 && DepthOf(g, b) == 2;
    assert g[..1] == [a] && [a][..0] == [];
    assert CountAt(g, [a], 0) == 0;
    assert g[|g| - 1] == b && g[..|g| - 1] == [a];
    assert WaveCount(g, g) >= 3;
  }

  // ------------------------------------------------------------ CheckGraph

  const MIN_CHILDREN := 8
  const MAX_CHILDREN := 12
  const FLEET_CONCURRENCY := 3

  datatype Rule = CountBudget | UnprovidedSymbol(symbol: string) | GraphCycle | GraphWidth

  datatype Violation = Violation(id: string, rule: Rule)

  /** The smallest identifier. */
  function LowestId(children: seq<Child>): string
    requires children != []
  {
    if |children| == 1 then children[0].id
    else
      var lowest := LowestId(children[..|children| - 1]);
      var last := children[|children| - 1].id;
      if StringLeq(lowest, last) then lowest else last
  }

  function Median(values: seq<nat>): real {
    var ordered := Sort<int>(values, IntLeq);
    var middle := |values| / 2;
    if |ordered| != |values| || values == [] then 0.0
    else if |values| % 2 != 0 then ordered[middle] as real
    else ordered[middle - 1] as real / 2.0 + ordered[middle] as real / 2.0
  }

  /** How many values are below m, or at most m when ties count. */
  function CountBelow(values: seq<int>, m: int, ties: bool): nat {
    if values == [] then 0
    else CountBelow(values[1..], m, ties) + if values[0] < m || (ties && values[0] == m) then 1 else 0
  }

  /** In order, a would stand at position k. */
  ghost predicate Ranked(values: seq<int>, a: int, k: nat) {
    a in values && CountBelow(values, a, false) <= k < CountBelow(values, a, true)
  }

  lemma {:induction false} InsertCounts(x: int, s: seq<int>, m: int, ties: bool)
    ensures CountBelow(Insert(x, s, IntLeq), m, ties)
            == CountBelow(s, m, ties) + if x < m || (ties && x == m) then 1 else 0
  {
    if s == [] || IntLeq(x, s[0]) {
      assert Insert(x, s, IntLeq) == [x] + s;
      assert ([x] + s)[1..] == s;
    } else {
      InsertCounts(x, s[1..], m, ties);
      assert ([s[0]] + Insert(x, s[1..], IntLeq))[1..] == Insert(x, s[1..], IntLeq);
    }
  }

  lemma {:induction false} SortCounts(s: seq<int>, m: int, ties: bool)
    ensures CountBelow(Sort(s, IntLeq), m, ties) == CountBelow(s, m, ties)
  {
    if s != [] {
      SortCounts(s[1..], m, ties);
      InsertCounts(s[0], Sort(s[1..], IntLeq), m, ties);
    }
  }

  lemma {:induction false} NoneBelow(s: seq<int>, m: int)
    requires forall i | 0 <= i < |s| :: m <= s[i]
    ensures CountBelow(s, m, false) == 0
  {
    if s != [] { NoneBelow(s[1..], m); }
  }

  /** In an ordered list the values below the one at position k stand before it, and those at most it
      reach at least up to it. */
  lemma {:induction false} OrderedCounts(s: seq<int>, k: nat)
    requires k < |s| && forall i, j | 0 <= i < j < |s| :: s[i] <= s[j]
    ensures CountBelow(s, s[k], false) <= k < CountBelow(s, s[k], true)
    decreases k
  {
    if k == 0 {
      NoneBelow(s, s[0]);
    } else {
      OrderedCounts(s[1..], k - 1);
    }
  }

  lemma SortRanked(values: seq<int>, k: nat)
    requires k < |values|
    ensures |Sort(values, IntLeq)| == |values| && Ranked(values, Sort(values, IntLeq)[k], k)
  {
    var ordered := Sort(values, IntLeq);
    IntOrder();
    SortIsSorted(values, IntLeq);
    SortMembers(values, IntLeq);
    forall i, j | 0 <= i < j < |ordered|
      ensures ordered[i] <= ordered[j]
    {
      assert IntLeq(ordered[i], ordered[j]);
    }
    OrderedCounts(ordered, k);
    SortCounts(values, ordered[k], false);
    SortCounts(values, ordered[k], true);
  }

  /** The median of an odd number of widths is the one with as many before as behind it, of an even number
      the mean of the two in the middle. */
  lemma MedianExactly(values: seq<nat>) returns (a: int, b: int)
    requires values != []
    ensures Ranked(values, a, (|values| - 1) / 2) && Ranked(values, b, |values| / 2)
    ensures Median(values) == (a as real + b as real) / 2.0
  {
    SortRanked(values, (|values| - 1) / 2);
    SortRanked(values, |values| / 2);
    var ordered := Sort<int>(values, IntLeq);
    a, b := ordered[(|values| - 1) / 2], ordered[|values| / 2];
  }

  /** Some transitive dependency of child declares the symbol. */
  ghost predicate Supplied(children: seq<Child>, child: Child, symbol: string) {
    exists b :: Above(children, child, b) && Known(children, b) && symbol in Resolve(children, b).value.offers
  }

  ghost function Unsupplied(children: seq<Child>, child: Child, needs: seq<string>): seq<Violation> {
    if needs == [] then []
    else
      var last := needs[|needs| - 1];
      Unsupplied(children, child, needs[..|needs| - 1])
      + if Supplied(children, child, last) then [] else [Violation(child.id, UnprovidedSymbol(last))]
  }

  ghost function AllUnsupplied(children: seq<Child>, some: seq<Child>): seq<Violation> {
    if some == [] then []
    else
      var last := some[|some| - 1];
      AllUnsupplied(children, some[..|some| - 1]) + Unsupplied(children, last, last.needs)
  }

  ghost function AllCyclic(children: seq<Child>, some: seq<Child>): seq<Violation> {
    if some == [] then []
    else
      var last := some[|some| - 1];
      AllCyclic(children, some[..|some| - 1])
      + if Above(children, last, last.id) then [Violation(last.id, GraphCycle)] else []
  }

  method CheckSymbols(children: seq<Child>, child: Child) returns (violations: seq<Violation>)
    ensures violations == Unsupplied(children, child, child.needs)
  {
    var symbols := AncestorProvides(children, child);
    violations := [];
    for n := 0 to |child.needs|
      invariant violations == Unsupplied(children, child, child.needs[..n])
    {
      assert child.needs[..n + 1][..n] == child.needs[..n];
      if child.needs[n] !in symbols {
        violations := violations + [Violation(child.id, UnprovidedSymbol(child.needs[n]))];
      }
    }
    assert child.needs[..|child.needs|] == child.needs;
  }

  method CheckCycles(children: seq<Child>) returns (violations: seq<Violation>, cyclic: bool)
    ensures violations == AllCyclic(children, children)
    ensures cyclic <==> exists c :: c in children && Above(children, c, c.id)
  {
    violations, cyclic := [], false;
    for n := 0 to |children|
      invariant violations == AllCyclic(children, children[..n])
      invariant cyclic <==> exists c :: c in children[..n] && Above(children, c, c.id)
    {
      var child := children[n];
      assert children[..n + 1] == children[..n] + [child];
      var found := InCycle(children, child);
      if found {
        cyclic := true;
        violations := violations + [Violation(child.id, GraphCycle)];
      }
    }
    assert children[..|children|] == children;
  }

  ghost function Budget(children: seq<Child>, verdictRecorded: bool): seq<Violation> {
    if |children| > MAX_CHILDREN || (0 < |children| < MIN_CHILDREN && !verdictRecorded)
    then [Violation(LowestId(children), CountBudget)] else []
  }

  ghost function Width(children: seq<Child>): seq<Violation> {
    if children != [] && (forall c | c in children :: !Above(children, c, c.id))
       && Median(WaveWidths(children)) < FLEET_CONCURRENCY as real
    then [Violation(LowestId(children), GraphWidth)] else []
  }

  ghost function Violations(children: seq<Child>, verdictRecorded: bool): seq<Violation> {
    Budget(children, verdictRecorded) + AllUnsupplied(children, children) + AllCyclic(children, children)
    + Width(children)
  }

  /** The identifier is that of a child, and no other comes before it. */
  ghost predicate IsLowest(children: seq<Child>, id: string) {
    (exists c :: c in children && c.id == id) && forall c | c in children :: StringLeq(id, c.id)
  }

  lemma {:induction false} LowestIsLeast(children: seq<Child>)
    requires children != []
    ensures IsLowest(children, LowestId(children))
  {
    StringOrder();
    if |children| > 1 {
      var init, last := children[..|children| - 1], children[|children| - 1];
      LowestIsLeast(init);
      assert children == init + [last];
      assert forall c :: c in children <==> c in init || c == last;
    } else {
      assert children == [children[0]];
    }
  }

  lemma {:induction false} CyclicMember(children: seq<Child>, some: seq<Child>, v: Violation)
    ensures v in AllCyclic(children, some) <==>
              v.rule == GraphCycle && exists c :: c in some && c.id == v.id && Above(children, c, c.id)
  {
    if some != [] {
      var init, last := some[..|some| - 1], some[|some| - 1];
      CyclicMember(children, init, v);
      assert some == init + [last];
      assert forall c :: c in some <==> c in init || c == last;
    }
  }

  lemma {:induction false} UnsuppliedMember(children: seq<Child>, child: Child, needs: seq<string>, v: Violation)
    ensures v in Unsupplied(children, child, needs) <==>
              v.id == child.id && v.rule.UnprovidedSymbol? && v.rule.symbol in needs
              && !Supplied(children, child, v.rule.symbol)
  {
    if needs != [] {
      var init, last := needs[..|needs| - 1], needs[|needs| - 1];
      UnsuppliedMember(children, child, init, v);
      assert needs == init + [last];
    }
  }

  /** Some child of this identifier needs the symbol, and no dependency offers it. */
  ghost predicate Missing(children: seq<Child>, some: seq<Child>, id: string, symbol: string) {
    exists c :: c in some && c.id == id && symbol in c.needs && !Supplied(children, c, symbol)
  }

  lemma {:induction false} AllUnsuppliedMember(children: seq<Child>, some: seq<Child>, v: Violation)
    ensures v in AllUnsupplied(children, some) <==>
              v.rule.UnprovidedSymbol? && Missing(children, some, v.id, v.rule.symbol)
  {
    if some != [] {
      var init, last := some[..|some| - 1], some[|some| - 1];
      AllUnsuppliedMember(children, init, v);
      UnsuppliedMember(children, last, last.needs, v);
      assert some == init + [last];
      assert forall c :: c in some <==> c in init || c == last;
    }
  }

  /** Which violations a plan has, rule by rule: a count outside 8 to 12 (fewer are allowed once a verdict
      is recorded) and a median width below 3 without a cycle, both blamed on the lowest identifier;
      every needed symbol that no dependency offers; every child in a cycle. */
  lemma ViolationsExactly(children: seq<Child>, verdictRecorded: bool, v: Violation)
    ensures v in Violations(children, verdictRecorded) <==>
              match v.rule
              case CountBudget =>
                children != [] && v.id == LowestId(children)
                && (|children| > 12 || (|children| < 8 && !verdictRecorded))
              case UnprovidedSymbol(symbol) => Missing(children, children, v.id, symbol)
              case GraphCycle => exists c :: c in children && c.id == v.id && Above(children, c, c.id)
              case GraphWidth =>
                children != [] && v.id == LowestId(children)
                && (forall c | c in children :: !Above(children, c, c.id)) && Median(WaveWidths(children)) < 3.0
  {
    AllUnsuppliedMember(children, children, v);
    CyclicMember(children, children, v);
    SumMember(Budget(children, verdictRecorded), AllUnsupplied(children, children), AllCyclic(children, children),
              Width(children), v);
  }

  lemma SumMember(a: seq<Violation>, b: seq<Violation>, c: seq<Violation>, d: seq<Violation>, v: Violation)
    ensures v in a + b + c + d <==> v in a || v in b || v in c || v in d
  {
  }

  /** The budget, every unsupplied symbol, every child in a cycle, and the width of an
      acyclic plan, in that order. */
  method CheckGraph(children: seq<Child>, verdictRecorded: bool) returns (violations: seq<Violation>)
    ensures violations == Violations(children, verdictRecorded)
  {
    var budget := [];
    if |children| > MAX_CHILDREN || (0 < |children| < MIN_CHILDREN && !verdictRecorded) {
      budget := [Violation(LowestId(children), CountBudget)];
    }
    var symbols: seq<Violation> := [];
    for n := 0 to |children|
      invariant symbols == AllUnsupplied(children, children[..n])
    {
      assert children[..n + 1][..n] == children[..n];
      var more := CheckSymbols(children, children[n]);
      symbols := symbols + more;
    }
    assert children[..|children|] == children;
    var cycles, cyclic := CheckCycles(children);
    var width := [];
    if |children| > 0 && !cyclic {
      var waves := Waves(children);
      if Median(waves) < FLEET_CONCURRENCY as real { width := [Violation(LowestId(children), GraphWidth)]; }
    }
    violations := budget + symbols + cycles + width;
  }

  lemma {:induction false} AllCyclicComplete(children: seq<Child>, some: seq<Child>)
    ensures AllCyclic(children, some) == [] ==> forall c | c in some :: !Above(children, c, c.id)
  {
    if some != [] { AllCyclicComplete(children, some[..|some| - 1]); }
  }

  lemma {:induction false} UnsuppliedComplete(children: seq<Child>, child: Child, needs: seq<string>)
    ensures Unsupplied(children, child, needs) == [] ==> forall s | s in needs :: Supplied(children, child, s)
  {
    if needs != [] { UnsuppliedComplete(children, child, needs[..|needs| - 1]); }
  }

  lemma {:induction false} AllUnsuppliedComplete(children: seq<Child>, some: seq<Child>)
    ensures AllUnsupplied(children, some) == []
            ==> forall c, s | c in some && s in c.needs :: Supplied(children, c, s)
  {
    if some != [] {
      var last := some[|some| - 1];
      AllUnsuppliedComplete(children, some[..|some| - 1]);
      UnsuppliedComplete(children, last, last.needs);
    }
  }

  /** A plan without cycle or symbol violations can be scheduled: it is acyclic, depths
      order its dependencies, and every symbol a child needs comes from a strictly
      shallower child. */
  lemma CleanPlan(children: seq<Child>, child: Child, symbol: string) returns (source: Child)
    requires DistinctIds(children) && child in children && symbol in child.needs
    requires AllCyclic(children, children) == [] && AllUnsupplied(children, children) == []
    ensures Acyclic(children) && source in children && symbol in source.offers
    ensures DepthOf(children, source) < DepthOf(children, child)
  {
    AllCyclicComplete(children, children);
    AllUnsuppliedComplete(children, children);
    forall a | ReachesStrictly(children, a, a)
      ensures false
    {
      var p :| IsWalkFromTo(children, p, a, a) && |p| >= 2;
      var c := Resolve(children, a).value;
      AboveIsStrict(children, c, a);
    }
    var b :| Above(children, child, b) && Known(children, b) && symbol in Resolve(children, b).value.offers;
    source := Resolve(children, b).value;
    ResolveDistinct(children, child);
    AboveIsStrict(children, child, b);
    var p :| IsWalkFromTo(children, p, child.id, b) && |p| >= 2;
    DepthsOrderIffAcyclic(children);
    WalkDescends(children, p);
  }
}
