/** What the resolved family is, and what `compute_depths` computes for it. */
module SessionDepths {
  import opened Wrappers
  import opened Text
  import opened SessionFamily

  // ---- the family is what the parent chains reach ----

  /** The parent chain of `l` reaches the root in `n` steps, all through candidates. */
  ghost predicate Chain(root: SessionLocator, cands: seq<SessionLocator>, l: SessionLocator, n: nat)
    decreases n
  {
    n > 0 && l in cands
    && if n == 1 then l.parentId == Some(root.id)
       else exists p :: p in cands && l.parentId == Some(p.id) && Chain(root, cands, p, n - 1)
  }

  ghost predicate Reaches(root: SessionLocator, cands: seq<SessionLocator>, l: SessionLocator) {
    exists n: nat :: Chain(root, cands, l, n)
  }

  lemma {:induction false} MemberReaches(root: SessionLocator, cands: seq<SessionLocator>, family: seq<SessionLocator>,
                                         k: nat)
    requires IsFamily(root, cands, family) && 1 <= k < |family|
    ensures Reaches(root, cands, family[k])
  {
    assert HasParentBefore(family, k, |family|);
    var i :| 0 <= i < k && ParentAt(family, k, i);
    if i == 0 {
      assert Chain(root, cands, family[k], 1);
    } else {
      MemberReaches(root, cands, family, i);
      var n: nat :| Chain(root, cands, family[i], n);
      assert Chain(root, cands, family[k], n + 1);
    }
  }

  lemma {:induction false} ChildIsMember(root: SessionLocator, cands: seq<SessionLocator>, family: seq<SessionLocator>,
                      l: SessionLocator, parent: SessionLocator)
    requires IsFamily(root, cands, family) && l in cands && parent in family && l.parentId == Some(parent.id)
    ensures l in family
  {
    var i :| 0 <= i < |family| && family[i] == parent;
    assert l.parentId == Some(family[i].id);
  }

  lemma {:induction false} ReachingIsMember(root: SessionLocator, cands: seq<SessionLocator>,
                                            family: seq<SessionLocator>, l: SessionLocator, n: nat)
    requires IsFamily(root, cands, family) && Chain(root, cands, l, n)
    ensures l in family
    decreases n
  {
    if n == 1 {
      ChildIsMember(root, cands, family, l, family[0]);
    } else {
      var p :| p in cands && l.parentId == Some(p.id) && Chain(root, cands, p, n - 1);
      ReachingIsMember(root, cands, family, p, n - 1);
      ChildIsMember(root, cands, family, l, p);
    }
  }

  /** Besides the root, the family holds exactly the candidates whose parent chain
      reaches it, each once, every one after its parent. */
  lemma {:induction false} FamilyIsReachable(root: SessionLocator, cands: seq<SessionLocator>,
                                             family: seq<SessionLocator>)
    requires IsFamily(root, cands, family) && (forall c :: c in cands ==> c.id != root.id)
    ensures family[0] == root
    ensures forall l :: l in family[1..] <==> Reaches(root, cands, l)
    ensures forall i, j :: 0 <= i < j < |family| ==> family[i].id != family[j].id
    ensures forall k :: 1 <= k < |family| ==> HasParentBefore(family, k, k)
  {
    forall l ensures l in family[1..] <==> Reaches(root, cands, l) {
      MemberIffReaches(root, cands, family, l);
    }
    forall k | 1 <= k < |family| ensures HasParentBefore(family, k, k) {
      assert HasParentBefore(family, k, |family|);
    }
  }

  lemma {:induction false} MemberIffReaches(root: SessionLocator, cands: seq<SessionLocator>,
                                            family: seq<SessionLocator>, l: SessionLocator)
    requires IsFamily(root, cands, family) && (forall c :: c in cands ==> c.id != root.id)
    ensures l in family[1..] <==> Reaches(root, cands, l)
  {
    if l in family[1..] {
      BelowReaches(root, cands, family, l);
    }
    if Reaches(root, cands, l) {
      ReachingIsBelow(root, cands, family, l);
    }
  }

  lemma {:induction false} BelowReaches(root: SessionLocator, cands: seq<SessionLocator>, family: seq<SessionLocator>,
                                        l: SessionLocator)
    requires IsFamily(root, cands, family) && l in family[1..]
    ensures Reaches(root, cands, l)
  {
    var k :| 0 <= k < |family[1..]| && family[1..][k] == l;
    MemberReaches(root, cands, family, k + 1);
  }

  lemma {:induction false} ReachingIsBelow(root: SessionLocator, cands: seq<SessionLocator>,
                                           family: seq<SessionLocator>, l: SessionLocator)
    requires IsFamily(root, cands, family) && (forall c :: c in cands ==> c.id != root.id) && Reaches(root, cands, l)
    ensures l in family[1..]
  {
    var n: nat :| Chain(root, cands, l, n);
    ReachingIsMember(root, cands, family, l, n);
    InTail(family, l);
  }

  lemma {:induction false} InTail(family: seq<SessionLocator>, l: SessionLocator)
    requires l in family && family[0].id != l.id
    ensures l in family[1..]
  {
    var k :| 0 <= k < |family| && family[k] == l;
    assert family[1..][k - 1] == l;
  }

  // ---- compute_depths ----

  /** The part of a parsed rollout that `compute_depths` reads. */
  datatype ParsedThread = ParsedThread(id: string, parentId: Option<string>)

  const USIZE_MAX := 0xffff_ffff_ffff_ffff

  /** Collecting (id, index) pairs into a map: a later index wins. */
  function IndexById(parsed: seq<ParsedThread>): map<string, nat> {
    if parsed == [] then map[]
    else IndexById(parsed[..|parsed| - 1])[parsed[|parsed| - 1].id := |parsed| - 1]
  }

  predicate ParentEarlier(parsed: seq<ParsedThread>, indexById: map<string, nat>, k: nat)
    requires k < |parsed|
  {
    parsed[k].parentId.Some? && parsed[k].parentId.value in indexById && indexById[parsed[k].parentId.value] < k
  }

  /** Each thread sits one below its parent; the first is the root. */
  ghost predicate DepthsFollow(parsed: seq<ParsedThread>, indexById: map<string, nat>, depths: seq<nat>)
  {
    |depths| <= |parsed|
    && (|depths| > 0 ==> depths[0] == 0)
    && forall k :: 1 <= k < |depths| ==>
         ParentEarlier(parsed, indexById, k) && depths[k] == depths[indexById[parsed[k].parentId.value]] + 1
  }

  lemma {:induction false} DepthsGrow(parsed: seq<ParsedThread>, indexById: map<string, nat>, depths: seq<nat>,
                                      parentIndex: nat)
    requires 0 < |depths| < |parsed| && DepthsFollow(parsed, indexById, depths)
    requires ParentEarlier(parsed, indexById, |depths|) && parentIndex == indexById[parsed[|depths|].parentId.value]
    ensures DepthsFollow(parsed, indexById, depths + [depths[parentIndex] + 1])
  {
    var grown := depths + [depths[parentIndex] + 1];
    forall k | 1 <= k < |grown|
      ensures ParentEarlier(parsed, indexById, k) && grown[k] == grown[indexById[parsed[k].parentId.value]] + 1
    {
      assert k < |depths| ==> ParentEarlier(parsed, indexById, k) && grown[k] == depths[k];
    }
  }

  /** `compute_depths` */
  method ComputeDepths(parsed: seq<ParsedThread>, indexById: map<string, nat>) returns (r: Result<seq<nat>, string>)
    ensures |parsed| <= USIZE_MAX ==> (r.Ok? <==> forall k :: 1 <= k < |parsed| ==> ParentEarlier(parsed, indexById, k))
    ensures r.Ok? ==> |r.value| == |parsed| && DepthsFollow(parsed, indexById, r.value)
  {
    var depths := new nat[|parsed|](_ => 0);
    var index := 1;
    while index < |parsed|
      invariant 1 <= index
      invariant forall i :: 0 <= i < |parsed| ==> depths[i] <= i
      invariant |parsed| > 0 ==> index <= |parsed| && DepthsFollow(parsed, indexById, depths[..index])
    {
      var parent := parsed[index].parentId;
      assert ParentEarlier(parsed, indexById, index) <==>
             parent.Some? && parent.value in indexById && indexById[parent.value] < index;
      if parent.None? {
        return Err("subagent rollout has no parent thread");
      }
      if parent.value !in indexById {
        return Err("subagent parent is outside the discovered family");
      }
      var parentIndex := indexById[parent.value];
      if parentIndex >= index {
        return Err("Codex session family is not in parent-before-child order");
      }
      if depths[parentIndex] + 1 > USIZE_MAX {
        return Err("thread depth overflow");
      }
      DepthsGrow(parsed, indexById, depths[..index], parentIndex);
      ghost var before := depths[..index];
      depths[index] := depths[parentIndex] + 1;
      assert depths[..index + 1] == before + [before[parentIndex] + 1];
      index := index + 1;
    }
    assert |parsed| > 0 ==> depths[..index] == depths[..];
    r := Ok(depths[..]);
  }

  // ---- depths of a resolved family ----

  /** The rollouts were parsed from the files of the family, in order. */
  ghost predicate ParsedFrom(parsed: seq<ParsedThread>, family: seq<SessionLocator>) {
    && |parsed| == |family|
    && forall k :: 0 <= k < |family| ==> parsed[k] == ParsedThread(family[k].id, family[k].parentId)
  }

  lemma {:induction false} IndexOfThread(parsed: seq<ParsedThread>, family: seq<SessionLocator>, n: nat, i: nat)
    requires ParsedFrom(parsed, family) && UniqueIds(family) && i < n <= |parsed|
    ensures family[i].id in IndexById(parsed[..n]) && IndexById(parsed[..n])[family[i].id] == i
  {
    var prefix := parsed[..n];
    assert prefix[..n - 1] == parsed[..n - 1] && prefix[n - 1] == parsed[n - 1];
    if i < n - 1 {
      IndexOfThread(parsed, family, n - 1, i);
      assert family[i].id != family[n - 1].id;
    }
  }

  lemma {:induction false} ParentIndex(root: SessionLocator, cands: seq<SessionLocator>, family: seq<SessionLocator>,
                    parsed: seq<ParsedThread>, k: nat) returns (i: nat)
    requires IsFamily(root, cands, family) && ParsedFrom(parsed, family) && 1 <= k < |family|
    ensures i < k && ParentAt(family, k, i) && ParentEarlier(parsed, IndexById(parsed), k)
    ensures IndexById(parsed)[parsed[k].parentId.value] == i
  {
    assert HasParentBefore(family, k, |family|);
    i :| 0 <= i < k && ParentAt(family, k, i);
    assert parsed[..|parsed|] == parsed;
    IndexOfThread(parsed, family, |parsed|, i);
  }

  lemma {:induction false} DepthIsChain(root: SessionLocator, cands: seq<SessionLocator>, family: seq<SessionLocator>,
                                        parsed: seq<ParsedThread>, depths: seq<nat>, k: nat)
    requires IsFamily(root, cands, family) && ParsedFrom(parsed, family)
    requires DepthsFollow(parsed, IndexById(parsed), depths) && |depths| == |family| && 1 <= k < |family|
    ensures Chain(root, cands, family[k], depths[k])
  {
    var i := ParentIndex(root, cands, family, parsed, k);
    if i > 0 {
      DepthIsChain(root, cands, family, parsed, depths, i);
      assert family[i] in cands && family[k].parentId == Some(family[i].id);
    }
  }

  /** A chain has one length. */
  lemma {:induction false} ChainLengthUnique(root: SessionLocator, cands: seq<SessionLocator>, l: SessionLocator,
                                             m: nat, n: nat)
    requires UniqueIds(cands) && (forall c :: c in cands ==> c.id != root.id)
    requires Chain(root, cands, l, m) && Chain(root, cands, l, n)
    ensures m == n
    decreases m
  {
    if m > 1 && n > 1 {
      var p :| p in cands && l.parentId == Some(p.id) && Chain(root, cands, p, m - 1);
      var q :| q in cands && l.parentId == Some(q.id) && Chain(root, cands, q, n - 1);
      if p != q { DifferentIds(cands, p, q); }
      ChainLengthUnique(root, cands, p, m - 1, n - 1);
    }
  }

  lemma {:induction false} ParentsInOrder(family: seq<SessionLocator>, j: nat, k: nat, a: nat, b: nat)
    requires BreadthFirst(family) && 1 <= j < k < |family| && ParentAt(family, j, a) && ParentAt(family, k, b)
    ensures a <= b
  {
  }

  lemma {:induction false} DepthsNonDecreasing(root: SessionLocator, cands: seq<SessionLocator>,
                                               family: seq<SessionLocator>, parsed: seq<ParsedThread>, depths: seq<nat>,
                                               j: nat, k: nat)
    requires IsFamily(root, cands, family) && ParsedFrom(parsed, family)
    requires DepthsFollow(parsed, IndexById(parsed), depths) && |depths| == |family| && j < k < |family|
    ensures depths[j] <= depths[k]
    decreases k
  {
    if j > 0 {
      var a := ParentIndex(root, cands, family, parsed, j);
      var b := ParentIndex(root, cands, family, parsed, k);
      ParentsInOrder(family, j, k, a, b);
      if a < b {
        DepthsNonDecreasing(root, cands, family, parsed, depths, a, b);
      }
    }
  }

  /** `compute_depths` succeeds on a resolved family; each depth is the length of
      the thread's parent chain, and depths never decrease along the list. */
  lemma {:induction false} FamilyDepths(root: SessionLocator, cands: seq<SessionLocator>, family: seq<SessionLocator>,
                     parsed: seq<ParsedThread>, depths: seq<nat>)
    requires IsFamily(root, cands, family) && ParsedFrom(parsed, family)
    ensures forall k :: 1 <= k < |parsed| ==> ParentEarlier(parsed, IndexById(parsed), k)
    ensures |depths| == |family| && DepthsFollow(parsed, IndexById(parsed), depths) ==>
              && (forall k :: 1 <= k < |family| ==> Chain(root, cands, family[k], depths[k]))
              && (forall j, k :: 0 <= j < k < |family| ==> depths[j] <= depths[k])
  {
    forall k | 1 <= k < |parsed| ensures ParentEarlier(parsed, IndexById(parsed), k) {
      var i := ParentIndex(root, cands, family, parsed, k);
    }
    if |depths| == |family| && DepthsFollow(parsed, IndexById(parsed), depths) {
      forall k | 1 <= k < |family| ensures Chain(root, cands, family[k], depths[k]) {
        DepthIsChain(root, cands, family, parsed, depths, k);
      }
      forall j, k | 0 <= j < k < |family| ensures depths[j] <= depths[k] {
        DepthsNonDecreasing(root, cands, family, parsed, depths, j, k);
      }
    }
  }

  // ---- said on the discovered sessions themselves ----

  /** A subagent whose parent chain of subagents reaches the root in `n` steps. */
  ghost predicate Descends(root: SessionLocator, locators: seq<SessionLocator>, l: SessionLocator, n: nat)
    decreases n
  {
    n > 0 && l in locators && l.isSubagent && l.id != root.id
    && if n == 1 then l.parentId == Some(root.id)
       else exists p: SessionLocator :: l.parentId == Some(p.id) && Descends(root, locators, p, n - 1)
  }

  ghost predicate Descendant(root: SessionLocator, locators: seq<SessionLocator>, l: SessionLocator) {
    exists n: nat :: Descends(root, locators, l, n)
  }

  lemma {:induction false} ChainDescends(root: SessionLocator, locators: seq<SessionLocator>, l: SessionLocator, n: nat)
    ensures Chain(RootEntry(root), Candidates(root, locators), l, n) <==> Descends(root, locators, l, n)
    decreases n
  {
    var cands := Candidates(root, locators);
    CandidatesContents(root, locators);
    if n > 1 {
      var entry, m := RootEntry(root), n - 1;
      forall p ensures Chain(entry, cands, p, m) <==> Descends(root, locators, p, m) {
        ChainDescends(root, locators, p, m);
      }
    }
  }

  /** Up to component `i` the paths are the same; there the first ends or has the lesser
      component. */
  ghost predicate PathDiffersAt(a: FilePath, b: FilePath, i: nat) {
    i <= |a| && i < |b| && a[..i] == b[..i] && (i < |a| ==> exists k: nat :: DiffersAt(a[i], b[i], k))
  }

  lemma {:induction false} PathLessIff(a: FilePath, b: FilePath)
    ensures PathLess(a, b) <==> exists i: nat :: PathDiffersAt(a, b, i)
  {
    if a == [] || b == [] || a[0] != b[0] {
      if a != [] && b != [] { LessIff(a[0], b[0]); }
      if PathLess(a, b) { assert PathDiffersAt(a, b, 0); }
    } else {
      PathLessIff(a[1..], b[1..]);
      LessIff(a[0], b[0]);
      LessIrreflexive(a[0]);
      if PathLess(a, b) {
        var i: nat :| PathDiffersAt(a[1..], b[1..], i);
        assert a[..i + 1] == [a[0]] + a[1..][..i] && b[..i + 1] == [b[0]] + b[1..][..i];
        assert PathDiffersAt(a, b, i + 1);
      }
      if i: nat :| PathDiffersAt(a, b, i) {
        assert i > 0 && a[1..][..i - 1] == a[..i][1..] && b[1..][..i - 1] == b[..i][1..];
        assert PathDiffersAt(a[1..], b[1..], i - 1);
      }
    }
  }

  /** Siblings stand in the order of their paths. */
  ghost predicate SiblingsInOrder(family: seq<SessionLocator>) {
    forall j, k, i: nat :: 1 <= j < k < |family| && family[j].parentId == family[k].parentId ==>
      !PathDiffersAt(family[k].path, family[j].path, i)
  }

  lemma {:induction false} InPathOrder(root: SessionLocator, cands: seq<SessionLocator>, family: seq<SessionLocator>)
    requires IsFamily(root, cands, family)
    ensures SiblingsInOrder(family)
  {
    forall j, k, i: nat | 1 <= j < k < |family| && family[j].parentId == family[k].parentId
      ensures !PathDiffersAt(family[k].path, family[j].path, i)
    {
      assert HasParentBefore(family, j, |family|);
      var a :| 0 <= a < j && ParentAt(family, j, a);
      assert ParentAt(family, k, a) && !PathFirst(family[k], family[j]);
      PathLessIff(family[k].path, family[j].path);
    }
  }

  /** From discovery to depths: with unique session ids the whole chain succeeds. After
      the root come exactly its descendants, each once and after its parent, siblings in
      path order, and each depth is the length of the parent chain. */
  method ResolveWithDepths(root: SessionLocator, locators: seq<SessionLocator>)
    returns (family: seq<SessionLocator>, depths: seq<nat>)
    requires UniqueIds(locators) && |locators| < 0xffff_ffff_ffff_ffff
    ensures |depths| == |family| > 0 && family[0] == SessionLocator(root.id, None, false, root.path)
    ensures forall l :: l in family[1..] <==> Descendant(root, locators, l)
    ensures forall j, k :: 0 <= j < k < |family| ==> family[j].id != family[k].id && depths[j] <= depths[k]
    ensures forall k :: 1 <= k < |family| ==> Descends(root, locators, family[k], depths[k])
    ensures SiblingsInOrder(family)
  {
    var resolved := ResolveFamily(root, locators);
    family := resolved.value;
    var parsed := seq(|family|, k requires 0 <= k < |family| => ParsedThread(family[k].id, family[k].parentId));
    ghost var entry, cands := RootEntry(root), Candidates(root, locators);
    CandidatesContents(root, locators);
    FamilyFits(root, locators, family);
    InPathOrder(entry, cands, family);
    FamilyDepths(entry, cands, family, parsed, []);
    var computed := ComputeDepths(parsed, IndexById(parsed));
    depths := computed.value;
    FamilyDepths(entry, cands, family, parsed, depths);
    MembersDescend(root, locators, family);
    forall k | 1 <= k < |family| ensures Descends(root, locators, family[k], depths[k]) {
      ChainDescends(root, locators, family[k], depths[k]);
    }
  }

  lemma {:induction false} MembersDescend(root: SessionLocator, locators: seq<SessionLocator>,
                                          family: seq<SessionLocator>)
    requires IsFamily(RootEntry(root), Candidates(root, locators), family)
    ensures forall l :: l in family[1..] <==> Descendant(root, locators, l)
    ensures forall i, j :: 0 <= i < j < |family| ==> family[i].id != family[j].id
    ensures forall k :: 1 <= k < |family| ==> HasParentBefore(family, k, k)
  {
    var entry, cands := RootEntry(root), Candidates(root, locators);
    CandidatesContents(root, locators);
    FamilyIsReachable(entry, cands, family);
    forall l ensures Reaches(entry, cands, l) <==> Descendant(root, locators, l) {
      forall n: nat { ChainDescends(root, locators, l, n); }
    }
  }

  lemma {:induction false} DistinctFit(small: seq<SessionLocator>, large: seq<SessionLocator>)
    requires UniqueIds(small) && forall l :: l in small ==> l in large
    ensures |small| <= |large|
  {
    if small != [] {
      var last := small[|small| - 1];
      assert last in small;
      var at :| 0 <= at < |large| && large[at] == last;
      var rest := large[..at] + large[at + 1..];
      forall l | l in small[..|small| - 1] ensures l in rest {
        var i :| 0 <= i < |small| - 1 && small[i] == l;
        assert small[i].id != last.id && l in small;
        var k :| 0 <= k < |large| && large[k] == l;
        assert l == if k < at then rest[k] else rest[k - 1];
      }
      DistinctFit(small[..|small| - 1], rest);
    }
  }

  lemma {:induction false} FamilyFits(root: SessionLocator, locators: seq<SessionLocator>, family: seq<SessionLocator>)
    requires IsFamily(RootEntry(root), Candidates(root, locators), family)
    ensures |family| <= |locators| + 1
  {
    CandidatesContents(root, locators);
    forall l | l in family[1..] ensures l in locators {
      var k :| 0 <= k < |family[1..]| && family[1..][k] == l;
      assert family[k + 1] in Candidates(root, locators);
    }
    DistinctFit(family[1..], locators);
  }
}
