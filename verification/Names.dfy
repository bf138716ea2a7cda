/** Repository naming of internal/repo: one record per distinct root, distinct names, sorted, and
    independent of the order of the roots. */
module Names {
  import opened Text
  import opened Decimal
  import opened Sorting

  /** A repository record; the prefix equals the name and the branch is the default one. */
  datatype Record = Record(name: string, root: string)

  // ------------------------------------------------------------ paths

  function TrimDirectory(directory: string): string {
    var trimmed := DropSuffix(directory, '/');
    if trimmed == "" then "/" else trimmed
  }

  /** Where the last separator is; minus one when there is none. */
  function LastSlash(path: string): int {
    if path == "" then -1 else if path[|path| - 1] == '/' then |path| - 1 else LastSlash(path[..|path| - 1])
  }

  lemma {:induction false} LastSlashBounds(path: string)
    ensures -1 <= LastSlash(path) < |path|
  {
    if path != "" && path[|path| - 1] != '/' { LastSlashBounds(path[..|path| - 1]); }
  }

  /** filepath.Base of a cleaned path without a trailing separator. */
  function Base(path: string): string {
    LastSlashBounds(path);
    if path == "/" then "/" else path[LastSlash(path) + 1..]
  }

  /** filepath.Dir of such a path. */
  function Dir(path: string): string {
    LastSlashBounds(path);
    if LastSlash(path) <= 0 then "/" else path[..LastSlash(path)]
  }

  function PathBase(directory: string): string {
    Base(TrimDirectory(directory))
  }

  function QualifiedName(root: string): string {
    PathBase(Dir(TrimDirectory(root))) + "-" + PathBase(root)
  }

  // ------------------------------------------------------------ names

  function CountBase(roots: seq<string>, base: string): nat {
    if roots == [] then 0
    else CountBase(roots[..|roots| - 1], base) + if PathBase(roots[|roots| - 1]) == base then 1 else 0
  }

  /** A base name shared by several roots is qualified by the directory above. */
  function Stem(roots: seq<string>, root: string): string {
    if CountBase(roots, PathBase(root)) > 1 then QualifiedName(root) else PathBase(root)
  }

  // What the names are, on the parts of a path.

  predicate IsPart(part: string) {
    part != "" && '/' !in part
  }

  lemma {:induction false} LastSlashOf(prefix: string, part: string)
    requires '/' !in part
    ensures LastSlash(prefix + "/" + part) == |prefix|
  {
    var path := prefix + "/" + part;
    if part != "" {
      assert path[|path| - 1] == part[|part| - 1] && part[|part| - 1] in part;
      assert path[..|path| - 1] == prefix + "/" + part[..|part| - 1];
      LastSlashOf(prefix, part[..|part| - 1]);
    }
  }

  /** The base name of a directory is the part between its last two separators. */
  lemma PathBaseIs(prefix: string, part: string)
    requires IsPart(part)
    ensures PathBase(prefix + "/" + part + "/") == part
  {
    var path := prefix + "/" + part;
    assert (path + "/")[..|path|] == path;
    LastSlashOf(prefix, part);
    assert path[|prefix| + 1..] == part;
  }

  /** A qualified name is the part before the base name, a dash, and the base name. */
  lemma QualifiedIs(prefix: string, parent: string, part: string)
    requires IsPart(parent) && IsPart(part)
    ensures QualifiedName(prefix + "/" + parent + "/" + part + "/") == parent + "-" + part
  {
    var above := prefix + "/" + parent;
    var path := above + "/" + part;
    assert (path + "/")[..|path|] == path;
    LastSlashOf(above, part);
    assert path[..|above|] == above;
    assert above[|above| - 1] in parent;
    LastSlashOf(prefix, parent);
    assert above[|prefix| + 1..] == parent;
    PathBaseIs(above, part);
  }

  lemma TopBase()
    ensures PathBase("/") == "/"
  {
    assert DropSuffix("/", '/') == "";
  }

  lemma TopParent(path: string)
    requires LastSlash(path) == 0
    ensures Dir(path) == "/"
  {
  }

  /** Directly under the file system root, the separator stands for the part before. */
  lemma QualifiedAtTop(prefix: string, part: string)
    requires prefix == "" && IsPart(part)
    ensures QualifiedName(prefix + "/" + part + "/") == "/" + "-" + part
  {
    var path := prefix + "/" + part;
    assert TrimDirectory(path + "/") == path by { assert (path + "/")[..|path|] == path; }
    LastSlashOf(prefix, part);
    TopParent(path);
    PathBaseIs(prefix, part);
    TopBase();
  }

  ghost predicate Used(roots: seq<string>, base: string) {
    exists r :: r in roots && PathBase(r) == base
  }

  /** Another root has the same base name. */
  ghost predicate Shared(roots: seq<string>, root: string) {
    exists other :: other in roots && other != root && PathBase(other) == PathBase(root)
  }

  lemma InInit(roots: seq<string>, r: string)
    requires roots != []
    ensures r in roots <==> r in roots[..|roots| - 1] || r == roots[|roots| - 1]
  {
    assert roots == roots[..|roots| - 1] + [roots[|roots| - 1]];
  }

  lemma {:induction false} CountUsed(roots: seq<string>, base: string)
    ensures CountBase(roots, base) > 0 <==> Used(roots, base)
  {
    if roots != [] {
      var init, last := roots[..|roots| - 1], roots[|roots| - 1];
      CountUsed(init, base);
      InInit(roots, last);
      if Used(init, base) {
        var r :| r in init && PathBase(r) == base;
        InInit(roots, r);
      }
      if Used(roots, base) {
        var r :| r in roots && PathBase(r) == base;
        InInit(roots, r);
      }
    }
  }

  lemma {:induction false} CountShared(roots: seq<string>, root: string)
    requires Distinct(roots) && root in roots
    ensures CountBase(roots, PathBase(root)) > 1 <==> Shared(roots, root)
  {
    var init, last := roots[..|roots| - 1], roots[|roots| - 1];
    assert last !in init;
    InInit(roots, root);
    InInit(roots, last);
    if root == last {
      CountUsed(init, PathBase(root));
      if r :| r in init && PathBase(r) == PathBase(root) {
        InInit(roots, r);
      }
    } else {
      CountShared(init, root);
      CountUsed(init, PathBase(root));
      if r :| r in init && r != root && PathBase(r) == PathBase(root) {
        InInit(roots, r);
      }
    }
    if r :| r in roots && r != root && PathBase(r) == PathBase(root) {
      InInit(roots, r);
    }
  }

  /** A root is named after its base name alone exactly when no other root has the same; otherwise both
      names are qualified. */
  lemma StemExactly(roots: seq<string>, root: string)
    requires Distinct(roots) && root in roots
    ensures Stem(roots, root) == if Shared(roots, root) then QualifiedName(root) else PathBase(root)
    ensures forall other | other in roots && other != root && PathBase(other) == PathBase(root) ::
              Stem(roots, other) == QualifiedName(other)
  {
    CountShared(roots, root);
    forall other | other in roots && other != root && PathBase(other) == PathBase(root)
      ensures Stem(roots, other) == QualifiedName(other)
    {
      CountShared(roots, other);
      assert Shared(roots, other);
    }
  }

  function Candidate(stem: string, suffix: nat): string {
    stem + "-" + Itoa(suffix)
  }

  lemma CandidateInjective(stem: string, a: nat, b: nat)
    requires Candidate(stem, a) == Candidate(stem, b)
    ensures a == b
  {
    var head := stem + "-";
    assert Candidate(stem, a)[|head|..] == Itoa(a) && Candidate(stem, b)[|head|..] == Itoa(b);
    ItoaInjective(a, b);
  }

  /** Suffixes from two up to n are all taken. */
  ghost predicate AllUsed(stem: string, used: set<string>, n: nat) {
    forall i | 2 <= i < n :: Candidate(stem, i) in used
  }

  ghost function Tried(stem: string, n: nat): set<string> {
    set i | 2 <= i < n :: Candidate(stem, i)
  }

  lemma {:induction false} TriedCount(stem: string, n: nat)
    requires n >= 2
    ensures |Tried(stem, n)| == n - 2
  {
    if n == 2 {
      assert Tried(stem, 2) == {};
    } else {
      TriedCount(stem, n - 1);
      assert Tried(stem, n) == Tried(stem, n - 1) + {Candidate(stem, n - 1)};
      if Candidate(stem, n - 1) in Tried(stem, n - 1) {
        var i :| 2 <= i < n - 1 && Candidate(stem, i) == Candidate(stem, n - 1);
        CandidateInjective(stem, i, n - 1);
      }
    }
  }

  /** Pigeonhole: the suffixes cannot all be taken for longer than there are names. */
  lemma SearchEnds(stem: string, used: set<string>, n: nat)
    requires n >= 2 && AllUsed(stem, used, n)
    ensures n - 2 <= |used|
  {
    TriedCount(stem, n);
    SubsetSize(Tried(stem, n), used);
  }

  lemma {:induction false} SubsetSize(a: set<string>, b: set<string>)
    requires a <= b
    ensures |a| <= |b|
  {
    if a != {} {
      var x :| x in a;
      SubsetSize(a - {x}, b - {x});
    }
  }

  /** The stem, or with the least suffix from two on that makes it new. */
  ghost predicate IsName(stem: string, used: set<string>, name: string) {
    name !in used
    && if stem !in used then name == stem
       else exists n :: n >= 2 && name == Candidate(stem, n) && AllUsed(stem, used, n)
  }

  /** The stem with a dash and any number from two up to n is in use. */
  ghost predicate Counted(stem: string, used: set<string>, n: nat) {
    forall i: nat | 2 <= i < n :: stem + "-" + Itoa(i) in used
  }

  /** A name chosen here in full: the stem, or the stem with a dash and the least number from two on that
      makes it new. */
  lemma NameExactly(stem: string, used: set<string>, name: string)
    requires IsName(stem, used, name)
    ensures name !in used && (stem !in used ==> name == stem)
    ensures stem in used ==>
              exists n: nat :: n >= 2 && name == stem + "-" + Itoa(n) && Counted(stem, used, n)
  {
    if stem in used {
      var n :| n >= 2 && name == Candidate(stem, n) && AllUsed(stem, used, n);
      forall i: nat | 2 <= i < n
        ensures stem + "-" + Itoa(i) in used
      {
        assert Candidate(stem, i) in used;
      }
      assert name == stem + "-" + Itoa(n) && Counted(stem, used, n);
    }
  }

  lemma NameUnique(stem: string, used: set<string>, a: string, b: string)
    requires IsName(stem, used, a) && IsName(stem, used, b)
    ensures a == b
  {
    if stem in used {
      var n :| n >= 2 && a == Candidate(stem, n) && AllUsed(stem, used, n);
      var m :| m >= 2 && b == Candidate(stem, m) && AllUsed(stem, used, m);
    }
  }

  method Unused(stem: string, used: set<string>) returns (name: string)
    ensures IsName(stem, used, name)
  {
    if stem !in used { return stem; }
    var suffix := 2;
    while true
      invariant suffix >= 2 && AllUsed(stem, used, suffix)
      decreases |used| + 2 - suffix
    {
      var candidate := Candidate(stem, suffix);
      if candidate !in used { return candidate; }
      assert AllUsed(stem, used, suffix + 1);
      SearchEnds(stem, used, suffix + 1);
      suffix := suffix + 1;
    }
  }

  // ------------------------------------------------------------ records

  /** Directories are absolute and clean, so normalizing one again changes nothing. */
  ghost predicate Idempotent(directory: string -> Option<string>) {
    forall r: string :: directory(r).Some? ==> directory(directory(r).value) == directory(r)
  }

  /** A record for the normalized root; a blank name falls back to the base name. */
  function Make(directory: string -> Option<string>, root: string, name: string): Option<Record> {
    match directory(root)
    case None => None
    case Some(d) => Some(Record(if TrimSpace(name) == "" then PathBase(d) else name, d))
  }

  lemma Dashed(name: string)
    requires '-' in name
    ensures TrimSpace(name) != ""
  {
    TrimSpaceEmpty(name);
  }

  lemma NameShape(roots: seq<string>, root: string, used: set<string>, name: string)
    requires IsName(Stem(roots, root), used, name)
    ensures name == PathBase(root) || '-' in name
  {
    var stem := Stem(roots, root);
    if stem in used {
      var n :| n >= 2 && name == Candidate(stem, n) && AllUsed(stem, used, n);
      assert name[|stem|] == '-';
    } else if stem == QualifiedName(root) {
      assert name[|PathBase(Dir(TrimDirectory(root)))|] == '-';
    }
  }

  /** The fallback never changes a name chosen here. */
  lemma MakeKeepsName(directory: string -> Option<string>, roots: seq<string>, root: string, used: set<string>,
                      name: string)
    requires directory(root) == Some(root) && IsName(Stem(roots, root), used, name)
    ensures Make(directory, root, name) == Some(Record(name, root))
  {
    NameShape(roots, root, used, name);
    if '-' in name { Dashed(name); }
  }

  function NamesOf(records: seq<Record>): set<string> {
    set r | r in records :: r.name
  }

  /** The records of the sorted roots, named one after the other. */
  ghost predicate Assigned(roots: seq<string>, records: seq<Record>) {
    |records| <= |roots| && forall k | 0 <= k < |records| :: AssignedAt(roots, records, k)
  }

  ghost predicate AssignedAt(roots: seq<string>, records: seq<Record>, k: nat)
    requires k < |records| <= |roots|
  {
    records[k].root == roots[k] && IsName(Stem(roots, roots[k]), NamesOf(records[..k]), records[k].name)
  }

  lemma {:induction false} AssignedUnique(roots: seq<string>, a: seq<Record>, b: seq<Record>)
    requires Assigned(roots, a) && Assigned(roots, b) && |a| == |b|
    ensures a == b
  {
    if a != [] {
      var n := |a| - 1;
      PrefixAssigned(roots, a);
      PrefixAssigned(roots, b);
      AssignedUnique(roots, a[..n], b[..n]);
      SameNext(roots, a, b, n);
      assert a == a[..n] + [a[n]] && b == b[..n] + [b[n]];
    }
  }

  lemma SameNext(roots: seq<string>, a: seq<Record>, b: seq<Record>, n: nat)
    requires n < |a| <= |roots| && n < |b| <= |roots|
    requires AssignedAt(roots, a, n) && AssignedAt(roots, b, n) && a[..n] == b[..n]
    ensures a[n] == b[n]
  {
    NameUnique(Stem(roots, roots[n]), NamesOf(a[..n]), a[n].name, b[n].name);
  }

  lemma PrefixAssigned(roots: seq<string>, records: seq<Record>)
    requires Assigned(roots, records) && records != []
    ensures Assigned(roots, records[..|records| - 1])
  {
    var init := records[..|records| - 1];
    forall k | 0 <= k < |init|
      ensures AssignedAt(roots, init, k)
    {
      assert AssignedAt(roots, records, k) && init[..k] == records[..k];
    }
  }

  lemma AssignedDistinct(roots: seq<string>, records: seq<Record>)
    requires Assigned(roots, records)
    ensures forall i, j | 0 <= i < j < |records| :: records[i].name != records[j].name
  {
    forall i, j | 0 <= i < j < |records|
      ensures records[i].name != records[j].name
    {
      assert AssignedAt(roots, records, j) && records[..j][i] == records[i];
    }
  }

  predicate RecordLeq(a: Record, b: Record) {
    if a.name == b.name then StringLeq(a.root, b.root) else StringLeq(a.name, b.name)
  }

  lemma RecordOrder()
    ensures TotalOrder(RecordLeq)
  {
    StringOrder();
  }

  /** Distinct normalized roots, in order of first appearance. */
  ghost predicate Normalized(directory: string -> Option<string>, roots: seq<string>, found: seq<string>) {
    (forall d :: d in found <==> exists i :: 0 <= i < |roots| && directory(roots[i]) == Some(d))
    && Distinct(found)
  }

  method Normalize(directory: string -> Option<string>, roots: seq<string>) returns (found: seq<string>)
    ensures Normalized(directory, roots, found)
  {
    found := [];
    var seen: set<string> := {};
    for n := 0 to |roots|
      invariant Normalized(directory, roots[..n], found) && forall d :: d in seen <==> d in found
    {
      var d := directory(roots[n]);
      assert forall i | 0 <= i < n :: roots[..n + 1][i] == roots[..n][i];
      assert roots[..n + 1][n] == roots[n];
      if d.None? || d.value in seen { continue; }
      seen := seen + {d.value};
      found := found + [d.value];
    }
    assert roots[..|roots|] == roots;
  }

  /** Names the sorted roots one after the other. */
  method Assign(directory: string -> Option<string>, roots: seq<string>) returns (records: seq<Record>)
    requires forall i | 0 <= i < |roots| :: directory(roots[i]) == Some(roots[i])
    ensures Assigned(roots, records) && |records| == |roots|
  {
    records := [];
    var used: set<string> := {};
    for n := 0 to |roots|
      invariant |records| == n && Assigned(roots, records) && used == NamesOf(records)
    {
      var name := Unused(Stem(roots, roots[n]), used);
      MakeKeepsName(directory, roots, roots[n], used, name);
      AssignedSnoc(roots, records, name);
      var record := Make(directory, roots[n], name);
      if record.Some? { records := records + [record.value]; }
      used := used + {name};
    }
  }

  lemma NamesOfSnoc(records: seq<Record>, r: Record)
    ensures NamesOf(records + [r]) == NamesOf(records) + {r.name}
  {
    assert forall x :: x in records + [r] <==> x in records || x == r;
  }

  lemma AssignedSnoc(roots: seq<string>, records: seq<Record>, name: string)
    requires Assigned(roots, records) && |records| < |roots|
    requires IsName(Stem(roots, roots[|records|]), NamesOf(records), name)
    ensures Assigned(roots, records + [Record(name, roots[|records|])])
    ensures NamesOf(records + [Record(name, roots[|records|])]) == NamesOf(records) + {name}
  {
    var next := records + [Record(name, roots[|records|])];
    forall k | 0 <= k < |next|
      ensures AssignedAt(roots, next, k)
    {
      assert next[..k] == records[..k];
      if k == |records| { assert records[..k] == records; } else { assert AssignedAt(roots, records, k); }
    }
    NamesOfSnoc(records, next[|records|]);
  }

  /** What the record list is: the distinct roots found, named in sorted order, sorted by name. */
  ghost predicate IsRecords(directory: string -> Option<string>, roots: seq<string>,
                            found: seq<string>, named: seq<Record>, records: seq<Record>)
  {
    Normalized(directory, roots, found) && Assigned(Sort(found, StringLeq), named) && |named| == |found|
    && records == Sort(named, RecordLeq)
  }

  method Records(directory: string -> Option<string>, roots: seq<string>) returns (records: seq<Record>)
    requires Idempotent(directory)
    ensures exists found, named :: IsRecords(directory, roots, found, named, records)
  {
    var found := Normalize(directory, roots);
    StringOrder();
    SortMembers(found, StringLeq);
    var sorted := Sort(found, StringLeq);
    forall i | 0 <= i < |sorted|
      ensures directory(sorted[i]) == Some(sorted[i])
    {
      assert sorted[i] in found;
      var j :| 0 <= j < |roots| && directory(roots[j]) == Some(sorted[i]);
    }
    var named := Assign(directory, sorted);
    records := Sort(named, RecordLeq);
    assert IsRecords(directory, roots, found, named, records);
  }

  /** Names are pairwise distinct and ascend. */
  lemma RecordsAscend(directory: string -> Option<string>, roots: seq<string>,
                      found: seq<string>, named: seq<Record>, records: seq<Record>)
    requires IsRecords(directory, roots, found, named, records)
    ensures forall i, j | 0 <= i < j < |records| ::
              records[i].name != records[j].name && StringLeq(records[i].name, records[j].name)
  {
    RecordOrder();
    SortIsSorted(named, RecordLeq);
    SortMembers(named, RecordLeq);
    AssignedDistinct(Sort(found, StringLeq), named);
    DistinctPermutation(named, records);
    forall i, j | 0 <= i < j < |records|
      ensures records[i].name != records[j].name && StringLeq(records[i].name, records[j].name)
    {
      assert RecordLeq(records[i], records[j]) && records[i] in named && records[j] in named;
    }
  }

  /** Exactly the distinct normalized roots have a record. */
  lemma RecordsCover(directory: string -> Option<string>, roots: seq<string>,
                     found: seq<string>, named: seq<Record>, records: seq<Record>, d: string)
    requires IsRecords(directory, roots, found, named, records)
    ensures (exists i :: 0 <= i < |roots| && directory(roots[i]) == Some(d))
            <==> exists k :: 0 <= k < |records| && records[k].root == d
    ensures forall j, k | 0 <= j < k < |records| :: records[j].root != records[k].root
  {
    var sorted := Sort(found, StringLeq);
    StringOrder();
    SortIsSorted(found, StringLeq);
    SortMembers(found, StringLeq);
    DistinctPermutation(found, sorted);
    RecordOrder();
    SortIsSorted(named, RecordLeq);
    SortMembers(named, RecordLeq);
    RootsKept(sorted, named, d);
    RootsKeptBySorting(named, records, d);
    AssignedDistinct(sorted, named);
    DistinctPermutation(named, records);
    RootsDistinct(sorted, named, records);
  }

  lemma RootsDistinct(sorted: seq<string>, named: seq<Record>, records: seq<Record>)
    requires Distinct(sorted) && Assigned(sorted, named) && Distinct(records) && forall r :: r in records ==> r in named
    ensures forall j, k | 0 <= j < k < |records| :: records[j].root != records[k].root
  {
    forall j, k | 0 <= j < k < |records|
      ensures records[j].root != records[k].root
    {
      assert records[j] in records && records[k] in records;
      SameRootSameRecord(sorted, named, records[j], records[k]);
    }
  }

  lemma SameRootSameRecord(sorted: seq<string>, named: seq<Record>, a: Record, b: Record)
    requires Distinct(sorted) && Assigned(sorted, named) && a in named && b in named
    ensures a.root == b.root ==> a == b
  {
    var x :| 0 <= x < |named| && named[x] == a;
    var y :| 0 <= y < |named| && named[y] == b;
    assert AssignedAt(sorted, named, x) && AssignedAt(sorted, named, y);
  }

  lemma RootsKept(sorted: seq<string>, named: seq<Record>, d: string)
    requires Assigned(sorted, named) && |named| == |sorted|
    ensures d in sorted <==> exists k :: 0 <= k < |named| && named[k].root == d
  {
    forall k | 0 <= k < |named|
      ensures named[k].root == sorted[k]
    {
      assert AssignedAt(sorted, named, k);
    }
    if d in sorted {
      var k :| 0 <= k < |sorted| && sorted[k] == d;
      assert named[k].root == d;
    }
  }

  lemma RootsKeptBySorting(named: seq<Record>, records: seq<Record>, d: string)
    requires forall r :: r in records <==> r in named
    ensures (exists k :: 0 <= k < |named| && named[k].root == d)
            <==> exists k :: 0 <= k < |records| && records[k].root == d
  {
    if k :| 0 <= k < |named| && named[k].root == d { assert named[k] in records; }
    if k :| 0 <= k < |records| && records[k].root == d { assert records[k] in named; }
  }

  /** The list depends only on which roots there are, not on their order or repetition. */
  lemma OrderDoesNotMatter(directory: string -> Option<string>, roots: seq<string>, other: seq<string>,
                           found: seq<string>, found': seq<string>, named: seq<Record>, named': seq<Record>,
                           a: seq<Record>, b: seq<Record>)
    requires IsRecords(directory, roots, found, named, a) && IsRecords(directory, other, found', named', b)
    requires forall r :: r in roots <==> r in other
    ensures a == b
  {
    SameFound(directory, roots, other, found, found');
    SameFound(directory, other, roots, found', found);
    DistinctMultiset(found, found');
    StringOrder();
    SortIsSorted(found, StringLeq);
    SortIsSorted(found', StringLeq);
    SortedUnique(Sort(found, StringLeq), Sort(found', StringLeq), StringLeq);
    assert |found| == |multiset(found)| == |found'|;
    AssignedUnique(Sort(found, StringLeq), named, named');
  }

  lemma SameFound(directory: string -> Option<string>, roots: seq<string>, other: seq<string>,
                  found: seq<string>, found': seq<string>)
    requires Normalized(directory, roots, found) && Normalized(directory, other, found')
    requires forall r :: r in roots ==> r in other
    ensures forall d :: d in found ==> d in found'
  {
    forall d | d in found
      ensures d in found'
    {
      var i :| 0 <= i < |roots| && directory(roots[i]) == Some(d);
      assert roots[i] in other;
      var j :| 0 <= j < |other| && other[j] == roots[i];
      assert directory(other[j]) == Some(d);
    }
  }
}
