/** `resolve_family` and `compute_depths`: the root thread, the subagents whose
    parent chain reaches it, and how deep each one sits. */
module SessionFamily {
  import opened Wrappers
  import opened Text
  import opened Sorting

  /** A path is its components, compared component by component. */
  type FilePath = seq<string>

  datatype SessionLocator = SessionLocator(id: string, parentId: Option<string>, isSubagent: bool, path: FilePath)

  predicate PathLess(a: FilePath, b: FilePath) {
    if b == [] then false
    else if a == [] then true
    else if a[0] != b[0] then Less(a[0], b[0])
    else PathLess(a[1..], b[1..])
  }

  lemma {:induction false} PathLessTransitive(a: FilePath, b: FilePath, c: FilePath)
    requires !PathLess(b, a) && !PathLess(c, b)
    ensures !PathLess(c, a)
  {
    if a != [] && b != [] && c != [] {
      LessTotal(a[0], b[0]);
      LessTotal(b[0], c[0]);
      if a[0] == b[0] && b[0] == c[0] {
        PathLessTransitive(a[1..], b[1..], c[1..]);
      } else if a[0] != b[0] && b[0] != c[0] {
        LessTransitive(a[0], b[0], c[0]);
        LessAsymmetric(a[0], c[0]);
      } else if a[0] != b[0] {
        LessAsymmetric(a[0], b[0]);
      } else {
        LessAsymmetric(b[0], c[0]);
      }
    }
  }

  // ---- the children of a thread, sorted by path ----

  lemma {:induction false} PathLessAsymmetric(a: FilePath, b: FilePath)
    requires PathLess(a, b)
    ensures !PathLess(b, a)
  {
    if a != [] {
      if a[0] == b[0] { PathLessAsymmetric(a[1..], b[1..]); } else { LessAsymmetric(a[0], b[0]); }
    }
  }

  predicate PathFirst(a: SessionLocator, b: SessionLocator) {
    PathLess(a.path, b.path)
  }

  lemma {:induction false} PathFirstIsOrder()
    ensures IsOrder(PathFirst)
  {
    forall a, b | PathFirst(a, b) ensures !PathFirst(b, a) { PathLessAsymmetric(a.path, b.path); }
    forall a, b, c | !PathFirst(b, a) && !PathFirst(c, b) ensures !PathFirst(c, a) {
      PathLessTransitive(a.path, b.path, c.path);
    }
  }

  function SortByPath(list: seq<SessionLocator>): seq<SessionLocator> {
    Sort(list, PathFirst)
  }

  /** The children of one parent come in path order. */
  lemma {:induction false} ChildrenSorted(list: seq<SessionLocator>, parent: string)
    ensures Sorted(ChildrenOf(list, parent), PathFirst)
  {
    PathFirstIsOrder();
    SortSorts(WithParent(list, parent), PathFirst);
  }

  // ---- candidates ----

  predicate IsCandidate(root: SessionLocator, l: SessionLocator) {
    l.id != root.id && l.isSubagent && l.parentId.Some?
  }

  function Candidates(root: SessionLocator, locators: seq<SessionLocator>): seq<SessionLocator> {
    if locators == [] then []
    else
      var last := locators[|locators| - 1];
      var rest := Candidates(root, locators[..|locators| - 1]);
      if IsCandidate(root, last) then rest + [last] else rest
  }

  function WithParent(list: seq<SessionLocator>, parent: string): seq<SessionLocator> {
    if list == [] then []
    else
      var last := list[|list| - 1];
      var rest := WithParent(list[..|list| - 1], parent);
      if last.parentId == Some(parent) then rest + [last] else rest
  }

  function ChildrenOf(list: seq<SessionLocator>, parent: string): seq<SessionLocator> {
    SortByPath(WithParent(list, parent))
  }

  lemma {:induction false} CandidatesContents(root: SessionLocator, locators: seq<SessionLocator>)
    ensures forall l :: l in Candidates(root, locators) <==> l in locators && IsCandidate(root, l)
  {
    if locators != [] {
      var front, last := locators[..|locators| - 1], locators[|locators| - 1];
      CandidatesContents(root, front);
      assert locators == front + [last];
    }
  }

  lemma {:induction false} WithParentContents(list: seq<SessionLocator>, parent: string)
    ensures forall l :: l in WithParent(list, parent) <==> l in list && l.parentId == Some(parent)
  {
    if list != [] {
      var front, last := list[..|list| - 1], list[|list| - 1];
      WithParentContents(front, parent);
      assert list == front + [last];
    }
  }

  lemma {:induction false} ChildrenContents(list: seq<SessionLocator>, parent: string)
    ensures forall l :: l in ChildrenOf(list, parent) <==> l in list && l.parentId == Some(parent)
  {
    WithParentContents(list, parent);
    SortContents(WithParent(list, parent), PathFirst);
    assert forall l :: l in ChildrenOf(list, parent) <==> l in multiset(ChildrenOf(list, parent));
    assert forall l :: l in WithParent(list, parent) <==> l in multiset(WithParent(list, parent));
  }

  ghost predicate UniqueIds(list: seq<SessionLocator>) {
    forall i, j :: 0 <= i < j < |list| ==> list[i].id != list[j].id
  }

  // ---- the breadth-first order ----

  /** `family` is the root followed by candidates, parents first, siblings by
      path; the children of the first `done` threads are in. */
  ghost predicate Progress(root: SessionLocator, cands: seq<SessionLocator>, family: seq<SessionLocator>, done: nat) {
    && done <= |family|
    && 0 < |family|
    && family[0] == root
    && UniqueIds(family)
    && AllPlaced(cands, family, done)
    && AllClosed(cands, family, done)
    && BreadthFirst(family)
    && SiblingsByPath(family)
  }

  ghost predicate AllPlaced(cands: seq<SessionLocator>, family: seq<SessionLocator>, done: nat) {
    forall k :: 1 <= k < |family| ==> family[k] in cands && HasParentBefore(family, k, done)
  }

  /** The children of the first `done` threads are in. */
  ghost predicate AllClosed(cands: seq<SessionLocator>, family: seq<SessionLocator>, done: nat)
    requires done <= |family|
  {
    forall c, i :: c in cands && 0 <= i < done && c.parentId == Some(family[i].id) ==> c in family
  }

  ghost predicate BreadthFirst(family: seq<SessionLocator>) {
    forall j, k, a, b :: 1 <= j < k < |family| && ParentAt(family, j, a) && ParentAt(family, k, b) ==> a <= b
  }

  ghost predicate SiblingsByPath(family: seq<SessionLocator>) {
    forall j, k, a :: 1 <= j < k < |family| && ParentAt(family, j, a) && ParentAt(family, k, a) ==>
      !PathFirst(family[k], family[j])
  }

  ghost predicate ParentAt(family: seq<SessionLocator>, k: int, i: int) {
    0 <= i < |family| && 0 <= k < |family| && family[k].parentId == Some(family[i].id)
  }

  ghost predicate HasParentBefore(family: seq<SessionLocator>, k: nat, done: nat) {
    exists i :: 0 <= i < k && i < done && ParentAt(family, k, i)
  }

  /** The finished list: every member's children are in. */
  ghost predicate IsFamily(root: SessionLocator, cands: seq<SessionLocator>, family: seq<SessionLocator>) {
    Progress(root, cands, family, |family|)
  }

  lemma {:induction false} GrowKeepsParents(root: SessionLocator, cands: seq<SessionLocator>,
                                            family: seq<SessionLocator>, done: nat, children: seq<SessionLocator>)
    requires Progress(root, cands, family, done) && done < |family|
    requires children == ChildrenOf(cands, family[done].id) && UniqueIds(family + children)
    ensures AllPlaced(cands, family + children, done + 1)
  {
    var grown := family + children;
    forall k | 1 <= k < |grown| ensures grown[k] in cands && HasParentBefore(grown, k, done + 1) {
      PlacedInGrown(root, cands, family, done, children, k);
    }
    assert AllPlaced(cands, grown, done + 1);
  }

  lemma {:induction false} PlacedInGrown(root: SessionLocator, cands: seq<SessionLocator>, family: seq<SessionLocator>,
                                         done: nat, children: seq<SessionLocator>, k: nat)
    requires Progress(root, cands, family, done) && done < |family|
    requires children == ChildrenOf(cands, family[done].id) && 1 <= k < |family + children|
    ensures (family + children)[k] in cands && HasParentBefore(family + children, k, done + 1)
  {
    var grown := family + children;
    if k < |family| {
      assert HasParentBefore(family, k, done);
      var i :| 0 <= i < k && i < done && ParentAt(family, k, i);
      assert ParentAt(grown, k, i);
    } else {
      ChildrenContents(cands, family[done].id);
      assert grown[k] in children;
      assert ParentAt(grown, k, done);
    }
  }

  /** The parent of a member is where it was, that of a new child is the thread just
      taken. */
  lemma {:induction false} ParentOfGrown(root: SessionLocator, cands: seq<SessionLocator>, family: seq<SessionLocator>,
                                         done: nat, children: seq<SessionLocator>, k: nat, a: int)
    requires Progress(root, cands, family, done) && done < |family|
    requires children == ChildrenOf(cands, family[done].id) && UniqueIds(family + children)
    requires 1 <= k < |family + children| && ParentAt(family + children, k, a)
    ensures if k < |family| then a < done && ParentAt(family, k, a) else a == done
  {
    var grown := family + children;
    ChildrenContents(cands, family[done].id);
    if k < |family| {
      assert HasParentBefore(family, k, done);
      var i :| 0 <= i < k && i < done && ParentAt(family, k, i);
      assert grown[i].id == grown[a].id;
    } else {
      assert grown[k] in children;
      assert grown[done].id == grown[a].id;
    }
  }

  lemma {:induction false} GrowKeepsClosed(root: SessionLocator, cands: seq<SessionLocator>,
                                           family: seq<SessionLocator>, done: nat, children: seq<SessionLocator>)
    requires Progress(root, cands, family, done) && done < |family|
    requires children == ChildrenOf(cands, family[done].id)
    ensures AllClosed(cands, family + children, done + 1)
  {
    var grown := family + children;
    ChildrenContents(cands, family[done].id);
    forall c, i | c in cands && 0 <= i < done + 1 && c.parentId == Some(grown[i].id) ensures c in grown {
      if i == done { assert c in children; } else { assert c in family; }
    }
  }

  lemma {:induction false} GrowKeepsOrder(root: SessionLocator, cands: seq<SessionLocator>, family: seq<SessionLocator>,
                                          done: nat, children: seq<SessionLocator>)
    requires Progress(root, cands, family, done) && done < |family|
    requires children == ChildrenOf(cands, family[done].id) && UniqueIds(family + children)
    ensures BreadthFirst(family + children) && SiblingsByPath(family + children)
  {
    var grown := family + children;
    ChildrenSorted(cands, family[done].id);
    forall j, k, a, b | 1 <= j < k < |grown| && ParentAt(grown, j, a) && ParentAt(grown, k, b)
      ensures a <= b && (a == b ==> !PathFirst(grown[k], grown[j]))
    {
      ParentOfGrown(root, cands, family, done, children, j, a);
      ParentOfGrown(root, cands, family, done, children, k, b);
      if j >= |family| {
        assert grown[j] == children[j - |family|] && grown[k] == children[k - |family|];
      }
    }
  }

  lemma {:induction false} GrowKeepsProgress(root: SessionLocator, cands: seq<SessionLocator>,
                                             family: seq<SessionLocator>, done: nat, children: seq<SessionLocator>)
    requires Progress(root, cands, family, done) && done < |family|
    requires children == ChildrenOf(cands, family[done].id) && UniqueIds(family + children)
    ensures Progress(root, cands, family + children, done + 1)
  {
    GrowKeepsParents(root, cands, family, done, children);
    GrowKeepsClosed(root, cands, family, done, children);
    GrowKeepsOrder(root, cands, family, done, children);
  }

  lemma {:induction false} WithParentUnique(list: seq<SessionLocator>, parent: string)
    requires UniqueIds(list)
    ensures UniqueIds(WithParent(list, parent))
  {
    if list != [] {
      var front, last := list[..|list| - 1], list[|list| - 1];
      WithParentUnique(front, parent);
      WithParentContents(front, parent);
      var kept := WithParent(front, parent);
      forall i | 0 <= i < |kept| ensures kept[i].id != last.id {
        assert kept[i] in front;
      }
    }
  }

  lemma {:induction false} SamePermutationUnique(a: seq<SessionLocator>, b: seq<SessionLocator>)
    requires UniqueIds(a) && multiset(a) == multiset(b)
    ensures UniqueIds(b)
  {
    forall i, j | 0 <= i < j < |b| ensures b[i].id != b[j].id {
      assert b[i] in multiset(b) && b[j] in multiset(b);
      if b[i].id == b[j].id {
        assert b[i] in a && b[j] in a;
        assert b[i] == b[j];
        CountTwice(b, i, j);
        CountOnce(a, b[i]);
      }
    }
  }

  lemma {:induction false} CountTwice(list: seq<SessionLocator>, i: nat, j: nat)
    requires i < j < |list| && list[i] == list[j]
    ensures multiset(list)[list[i]] >= 2
  {
    assert list == list[..j] + [list[j]] + list[j + 1..];
    assert list[i] in list[..j];
    assert multiset(list) == multiset(list[..j]) + multiset{list[j]} + multiset(list[j + 1..]);
  }

  lemma {:induction false} CountOnce(list: seq<SessionLocator>, l: SessionLocator)
    requires UniqueIds(list)
    ensures multiset(list)[l] <= 1
  {
    if list != [] {
      var front, last := list[..|list| - 1], list[|list| - 1];
      CountOnce(front, l);
      assert list == front + [last];
      assert forall i :: 0 <= i < |front| ==> front[i] == list[i] && list[i].id != list[|front|].id;
      assert last !in front;
    }
  }

  lemma {:induction false} DifferentIds(list: seq<SessionLocator>, a: SessionLocator, b: SessionLocator)
    requires UniqueIds(list) && a in list && b in list && a != b
    ensures a.id != b.id
  {
  }

  /** With unique session ids a child is never already in the family: the "cycle
      or duplicate" error cannot happen. */
  lemma {:induction false} ChildIsNew(root: SessionLocator, cands: seq<SessionLocator>, family: seq<SessionLocator>,
                                      done: nat, j: nat)
    requires UniqueIds(cands) && (forall c :: c in cands ==> c.id != root.id)
    requires Progress(root, cands, family, done) && done < |family|
    requires j < |ChildrenOf(cands, family[done].id)|
    ensures var children := ChildrenOf(cands, family[done].id);
            forall i :: 0 <= i < |family| + j ==> (family + children[..j])[i].id != children[j].id
  {
    var children := ChildrenOf(cands, family[done].id);
    WithParentUnique(cands, family[done].id);
    SortContents(WithParent(cands, family[done].id), PathFirst);
    SamePermutationUnique(WithParent(cands, family[done].id), children);
    ChildrenContents(cands, family[done].id);
    var c := children[j];
    assert c in children;
    forall i | 0 <= i < |family| + j ensures (family + children[..j])[i].id != c.id {
      if 1 <= i < |family| {
        assert HasParentBefore(family, i, done);
        var k :| 0 <= k < i && k < done && ParentAt(family, i, k);
        assert family[i].parentId != c.parentId;
        DifferentIds(cands, family[i], c);
      }
    }
  }

  // ---- the algorithm ----

  function Lookup(byParent: map<string, seq<SessionLocator>>, parent: string): seq<SessionLocator> {
    if parent in byParent then byParent[parent] else []
  }

  ghost predicate Groups(byParent: map<string, seq<SessionLocator>>, list: seq<SessionLocator>) {
    forall p :: Lookup(byParent, p) == WithParent(list, p)
  }

  lemma {:induction false} GroupOne(byParent: map<string, seq<SessionLocator>>, list: seq<SessionLocator>,
                                    l: SessionLocator)
    requires Groups(byParent, list) && l.parentId.Some?
    ensures Groups(byParent[l.parentId.value := Lookup(byParent, l.parentId.value) + [l]], list + [l])
  {
    assert (list + [l])[..|list|] == list;
    var grouped := byParent[l.parentId.value := Lookup(byParent, l.parentId.value) + [l]];
    forall p ensures Lookup(grouped, p) == WithParent(list + [l], p) {
      assert Lookup(byParent, p) == WithParent(list, p);
    }
  }

  /** Sorts every group in place. */
  function SortGroups(byParent: map<string, seq<SessionLocator>>): (r: map<string, seq<SessionLocator>>)
    ensures r.Keys == byParent.Keys && forall p :: p in r ==> r[p] == SortByPath(byParent[p])
  {
    map p | p in byParent :: SortByPath(byParent[p])
  }

  /** `by_parent`: candidates grouped by parent, each group sorted. */
  method GroupByParent(root: SessionLocator, locators: seq<SessionLocator>)
    returns (byParent: map<string, seq<SessionLocator>>)
    ensures forall p :: Lookup(byParent, p) == ChildrenOf(Candidates(root, locators), p)
  {
    byParent := map[];
    var n := 0;
    while n < |locators|
      invariant n <= |locators|
      invariant Groups(byParent, Candidates(root, locators[..n]))
    {
      var locator := locators[n];
      assert locators[..n + 1][..n] == locators[..n];
      ghost var before := Candidates(root, locators[..n]);
      n := n + 1;
      if locator.id == root.id || !locator.isSubagent || locator.parentId.None? {
        continue;
      }
      GroupOne(byParent, before, locator);
      var parent := locator.parentId.value;
      byParent := byParent[parent := Lookup(byParent, parent) + [locator]];
    }
    assert locators[..n] == locators;
    ghost var grouped := byParent;
    byParent := SortGroups(byParent);
    forall p ensures Lookup(byParent, p) == ChildrenOf(Candidates(root, locators), p) {
      assert SortByPath([]) == [];
      assert Lookup(grouped, p) == WithParent(Candidates(root, locators), p);
    }
  }

  function Ids(list: seq<SessionLocator>): (r: seq<string>)
    ensures |r| == |list| && forall i :: 0 <= i < |r| ==> r[i] == list[i].id
  {
    seq(|list|, i requires 0 <= i < |list| => list[i].id)
  }

  ghost function IdSet(list: seq<SessionLocator>): set<string> {
    set i | 0 <= i < |list| :: list[i].id
  }

  lemma {:induction false} IdSetSnoc(list: seq<SessionLocator>, l: SessionLocator)
    ensures IdSet(list + [l]) == IdSet(list) + {l.id}
  {
    assert forall i :: 0 <= i < |list| ==> (list + [l])[i] == list[i];
    assert (list + [l])[|list|] == l;
    forall x | x in IdSet(list + [l]) ensures x in IdSet(list) + {l.id} {
    }
    forall x | x in IdSet(list) ensures x in IdSet(list + [l]) {
      var i :| 0 <= i < |list| && list[i].id == x;
      assert (list + [l])[i].id == x;
    }
  }

  /** The root as it enters the family. */
  function RootEntry(root: SessionLocator): SessionLocator {
    SessionLocator(root.id, None, false, root.path)
  }

  /** What `by_parent` still holds once the first `done` threads were taken out. */
  ghost predicate Remaining(cands: seq<SessionLocator>, family: seq<SessionLocator>, done: nat,
                            byParent: map<string, seq<SessionLocator>>)
    requires done <= |family|
  {
    forall p :: Lookup(byParent, p) == if p in IdSet(family[..done]) then [] else ChildrenOf(cands, p)
  }

  /** The variables of the loop. */
  datatype Search = Search(byParent: map<string, seq<SessionLocator>>, queue: seq<string>, seen: set<string>,
                           family: seq<SessionLocator>)

  ghost predicate Searching(root: SessionLocator, cands: seq<SessionLocator>, done: nat, s: Search) {
    && Progress(root, cands, s.family, done)
    && s.queue == Ids(s.family[done..])
    && s.seen == IdSet(s.family)
    && Remaining(cands, s.family, done, s.byParent)
  }

  /** One turn of the loop; `None` is the "cycle or duplicate" error. */
  method TakeNext(ghost root: SessionLocator, ghost cands: seq<SessionLocator>, ghost done: nat, s: Search)
    returns (r: Option<Search>)
    requires Searching(root, cands, done, s) && s.queue != []
    ensures r.Some? ==> Searching(root, cands, done + 1, r.value)
    ensures r.Some? ==>
            |r.value.byParent| < |s.byParent| || (|r.value.byParent| == |s.byParent| && |r.value.queue| < |s.queue|)
    ensures r.None? ==> Clash(cands, s.family, done)
  {
    var parent := s.queue[0];
    var children := Lookup(s.byParent, parent);
    var byParent := s.byParent - {parent};
    TakeParent(cands, s.family, done, s.byParent, byParent, parent);
    RemovalShrinks(s.byParent, parent);
    var added := Enqueue(s.queue[1..], s.seen, s.family, children);
    if added.None? {
      return None;
    }
    GrowKeepsProgress(root, cands, s.family, done, children);
    QueueStep(s.family, children, done);
    RemainingIgnoresNew(cands, s.family, children, done + 1, byParent);
    var (queue, seen, family) := added.value;
    r := Some(Search(byParent, queue, seen, family));
  }

  /** `resolve_family` */
  method ResolveFamily(root: SessionLocator, locators: seq<SessionLocator>)
    returns (r: Result<seq<SessionLocator>, string>)
    ensures UniqueIds(locators) ==> r.Ok?
    ensures r.Ok? ==> IsFamily(RootEntry(root), Candidates(root, locators), r.value)
  {
    ghost var cands := Candidates(root, locators);
    var byParent := GroupByParent(root, locators);
    var s := Search(byParent, [root.id], {root.id}, [RootEntry(root)]);
    ghost var done := 0;
    JustTheRoot(RootEntry(root), cands, byParent);
    while s.queue != []
      invariant Searching(RootEntry(root), cands, done, s)
      decreases |s.byParent|, |s.queue|
    {
      var next := TakeNext(RootEntry(root), cands, done, s);
      if next.None? {
        ClashNeedsDuplicate(root, locators, s.family, done);
        return Err("Codex session family contains a cycle or duplicate");
      }
      s := next.value;
      done := done + 1;
    }
    r := Ok(s.family);
  }

  /** A child of the current thread has the id of an earlier member. */
  ghost predicate Clash(cands: seq<SessionLocator>, family: seq<SessionLocator>, done: nat) {
    done < |family|
    && var children := ChildrenOf(cands, family[done].id);
       exists j :: 0 <= j < |children| && children[j].id in IdSet(family + children[..j])
  }

  lemma {:induction false} JustTheRoot(root: SessionLocator, cands: seq<SessionLocator>,
                                       byParent: map<string, seq<SessionLocator>>)
    requires forall p :: Lookup(byParent, p) == ChildrenOf(cands, p)
    ensures Searching(root, cands, 0, Search(byParent, [root.id], {root.id}, [root]))
  {
    assert [root][..0] == [] && IdSet([]) == {};
    assert [root][0].id in IdSet([root]);
  }

  lemma {:induction false} QueueStep(family: seq<SessionLocator>, children: seq<SessionLocator>, done: nat)
    requires done < |family|
    ensures Ids(family[done..])[1..] + Ids(children) == Ids((family + children)[done + 1..])
  {
    assert (family + children)[done + 1..] == family[done + 1..] + children;
  }

  lemma {:induction false} RemainingIgnoresNew(cands: seq<SessionLocator>, family: seq<SessionLocator>,
                                               children: seq<SessionLocator>, done: nat,
                                               byParent: map<string, seq<SessionLocator>>)
    requires done <= |family| && Remaining(cands, family, done, byParent)
    ensures Remaining(cands, family + children, done, byParent)
  {
    assert (family + children)[..done] == family[..done];
  }

  lemma {:induction false} ClashNeedsDuplicate(root: SessionLocator, locators: seq<SessionLocator>,
                                               family: seq<SessionLocator>, done: nat)
    requires Progress(RootEntry(root), Candidates(root, locators), family, done)
    requires Clash(Candidates(root, locators), family, done)
    ensures !UniqueIds(locators)
  {
    var cands := Candidates(root, locators);
    var children := ChildrenOf(cands, family[done].id);
    var j :| 0 <= j < |children| && children[j].id in IdSet(family + children[..j]);
    if UniqueIds(locators) {
      CandidatesUnique(root, locators);
      CandidatesContents(root, locators);
      ChildIsNew(RootEntry(root), cands, family, done, j);
    }
  }

  lemma {:induction false} NotDoneYet(family: seq<SessionLocator>, done: nat)
    requires done < |family| && UniqueIds(family)
    ensures family[done].id !in IdSet(family[..done])
    ensures IdSet(family[..done + 1]) == IdSet(family[..done]) + {family[done].id}
  {
    assert family[..done + 1] == family[..done] + [family[done]];
    IdSetSnoc(family[..done], family[done]);
  }

  lemma {:induction false} TakeParent(cands: seq<SessionLocator>, family: seq<SessionLocator>, done: nat,
                   before: map<string, seq<SessionLocator>>, after: map<string, seq<SessionLocator>>, parent: string)
    requires done < |family| && parent == family[done].id && UniqueIds(family)
    requires Remaining(cands, family, done, before) && after == before - {parent}
    ensures Remaining(cands, family, done + 1, after)
    ensures Lookup(before, parent) == ChildrenOf(cands, parent)
  {
    NotDoneYet(family, done);
    forall p ensures Lookup(after, p) == if p in IdSet(family[..done + 1]) then [] else ChildrenOf(cands, p) {
      assert Lookup(after, p) == if p == parent then [] else Lookup(before, p);
    }
  }

  lemma {:induction false} RemovalShrinks(before: map<string, seq<SessionLocator>>, parent: string)
    ensures |before - {parent}| <= |before| && (parent in before ==> |before - {parent}| < |before|)
  {
    var after := before - {parent};
    assert after.Keys == before.Keys - {parent};
    assert |after| == |after.Keys| && |before| == |before.Keys|;
  }

  lemma {:induction false} CandidatesUnique(root: SessionLocator, locators: seq<SessionLocator>)
    requires UniqueIds(locators)
    ensures UniqueIds(Candidates(root, locators))
  {
    if locators != [] {
      var front, last := locators[..|locators| - 1], locators[|locators| - 1];
      CandidatesUnique(root, front);
      CandidatesContents(root, front);
      var kept := Candidates(root, front);
      forall i | 0 <= i < |kept| ensures kept[i].id != last.id {
        assert kept[i] in front;
      }
    }
  }

  /** The inner loop: every child must be unseen. */
  method Enqueue(queue: seq<string>, seen: set<string>, family: seq<SessionLocator>, children: seq<SessionLocator>)
    returns (r: Option<(seq<string>, set<string>, seq<SessionLocator>)>)
    requires seen == IdSet(family) && UniqueIds(family)
    ensures r.Some? ==> r.value == (queue + Ids(children), IdSet(family + children), family + children)
    ensures r.Some? ==> UniqueIds(family + children)
    ensures r.None? ==> exists j :: 0 <= j < |children| && children[j].id in IdSet(family + children[..j])
  {
    var q, s, f := queue, seen, family;
    var n := 0;
    while n < |children|
      invariant n <= |children|
      invariant q == queue + Ids(children[..n]) && f == family + children[..n]
      invariant s == IdSet(f) && UniqueIds(f)
    {
      var child := children[n];
      if child.id in s {
        return None;
      }
      assert children[..n + 1] == children[..n] + [child];
      IdSetSnoc(f, child);
      q, s, f := q + [child.id], s + {child.id}, f + [child];
      n := n + 1;
    }
    assert children[..n] == children;
    r := Some((q, s, f));
  }
}
