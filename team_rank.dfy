/**
 * Team re-ranking (src/rules/team/rank.py): issues are grouped into blocks
 * by parent, blocks are reordered by their parent's rank within the
 * parent's project, blocks whose parent is in progress are promoted, and the
 * flattened result is applied with the shared move emitter.
 *
 * Ranks are the tracker's lexicographic rank strings; the model orders
 * them as integers.
 */
module TeamRank {
  import opened Common
  import opened Sorting
  import MoveEmitter

  /** A parent (absent for an orphan issue) and its issues, in input order. */
  datatype Block = Block(parent: Option<Issue>, issues: seq<Issue>)

  /** Orphan blocks never count as in progress. */
  predicate ParentInProgress(b: Block)
  {
    b.parent.Some? && b.parent.value.category == InProgress
  }

  predicate NotInProgress(b: Block)
  {
    !ParentInProgress(b)
  }

  function ParentProject(b: Block): Option<string>
  {
    if b.parent.Some? then Some(b.parent.value.project) else None
  }

  function ParentRank(b: Block): real
  {
    if b.parent.Some? then b.parent.value.rank as real else 0.0
  }

  function HasParent(parent: Issue): Issue -> bool
  {
    (x: Issue) => x.parent == Some(parent)
  }

  ghost predicate WellFormed(bs: seq<Block>)
  {
    forall i :: 0 <= i < |bs| ==> bs[i].issues != []
  }

  // ---------------------------------------------------------------------
  // Grouping issues into blocks (Blocks.__init__ / add_issue).

  /** Index of the first block whose parent is `parent`, |bs| when none. */
  function FindBlock(bs: seq<Block>, parent: Issue): (i: nat)
    ensures i <= |bs|
    ensures forall j :: 0 <= j < i ==> bs[j].parent != Some(parent)
    ensures i < |bs| ==> bs[i].parent == Some(parent)
  {
    if bs == [] then 0
    else if bs[0].parent == Some(parent) then 0
    else 1 + FindBlock(bs[1..], parent)
  }

  /** An orphan opens its own block; otherwise the issue joins its parent's block, opened on demand. */
  function AddTo(bs: seq<Block>, issue: Issue): seq<Block>
  {
    if issue.parent.None? then bs + [Block(None, [issue])]
    else
      var i := FindBlock(bs, issue.parent.value);
      if i < |bs| then bs[i := bs[i].(issues := bs[i].issues + [issue])]
      else bs + [Block(issue.parent, [issue])]
  }

  function Grouped(issues: seq<Issue>): seq<Block>
  {
    if issues == [] then [] else AddTo(Grouped(issues[..|issues| - 1]), issues[|issues| - 1])
  }

  /** The issues of all blocks, block after block. */
  function Members(bs: seq<Block>): seq<Issue>
  {
    if bs == [] then [] else Members(bs[..|bs| - 1]) + bs[|bs| - 1].issues
  }

  lemma {:induction false} MembersAppend(a: seq<Block>, b: seq<Block>)
    ensures Members(a + b) == Members(a) + Members(b)
    decreases |b|
  {
    if b == [] {
      assert a + b == a;
    } else {
      assert (a + b)[..|a + b| - 1] == a + b[..|b| - 1];
      MembersAppend(a, b[..|b| - 1]);
    }
  }

  lemma MembersUpdate(bs: seq<Block>, i: nat, x: Issue)
    requires i < |bs|
    ensures multiset(Members(bs[i := bs[i].(issues := bs[i].issues + [x])]))
         == multiset(Members(bs)) + multiset{x}
  {
    var b' := bs[i].(issues := bs[i].issues + [x]);
    var u, v := bs[..i], bs[i + 1..];
    assert bs == u + [bs[i]] + v;
    assert bs[i := b'] == u + [b'] + v;
    MembersAppend(u + [bs[i]], v);
    MembersAppend(u, [bs[i]]);
    MembersAppend(u + [b'], v);
    MembersAppend(u, [b']);
    assert Members([bs[i]]) == bs[i].issues by { assert [bs[i]][..0] == []; }
    assert Members([b']) == b'.issues by { assert [b'][..0] == []; }
  }

  /** Every issue lands in exactly one block: the blocks hold the input, nothing more or less. */
  lemma {:induction false} GroupedKeepsEveryIssue(issues: seq<Issue>)
    ensures multiset(Members(Grouped(issues))) == multiset(issues)
  {
    if issues != [] {
      var t, x := issues[..|issues| - 1], issues[|issues| - 1];
      var g := Grouped(t);
      GroupedKeepsEveryIssue(t);
      assert issues == t + [x];
      if x.parent.None? || FindBlock(g, x.parent.value) == |g| {
        var nb := Block(x.parent, [x]);
        MembersAppend(g, [nb]);
        assert Members([nb]) == [x] by { assert [nb][..0] == []; }
      } else {
        MembersUpdate(g, FindBlock(g, x.parent.value), x);
      }
    }
  }

  /** No block is empty, an orphan block holds exactly its orphan, and no two blocks share a parent. */
  ghost predicate GroupShape(bs: seq<Block>)
  {
    && WellFormed(bs)
    && (forall i :: 0 <= i < |bs| && bs[i].parent.None? ==> |bs[i].issues| == 1 && bs[i].issues[0].parent.None?)
    && (forall i, j :: 0 <= i < j < |bs| && bs[i].parent.Some? ==> bs[i].parent != bs[j].parent)
  }

  lemma {:induction false} GroupedShape(issues: seq<Issue>)
    ensures GroupShape(Grouped(issues))
  {
    if issues != [] {
      var t, x := issues[..|issues| - 1], issues[|issues| - 1];
      GroupedShape(t);
    }
  }

  /** The first matching index is the only index with no match before it and a match at it. */
  lemma FindBlockUnique(bs: seq<Block>, parent: Issue, i: nat)
    requires i <= |bs|
    requires forall j :: 0 <= j < i ==> bs[j].parent != Some(parent)
    requires i < |bs| ==> bs[i].parent == Some(parent)
    ensures FindBlock(bs, parent) == i
  {
  }

  /** Where the block for `parent` sits after one more issue is added. */
  lemma FindBlockAfterAdd(bs: seq<Block>, x: Issue, parent: Issue)
    ensures x.parent == Some(parent) && FindBlock(bs, parent) == |bs| ==> FindBlock(AddTo(bs, x), parent) == |bs|
    ensures FindBlock(bs, parent) < |bs| ==> FindBlock(AddTo(bs, x), parent) == FindBlock(bs, parent)
    ensures x.parent != Some(parent) && FindBlock(bs, parent) == |bs| ==> FindBlock(AddTo(bs, x), parent) == |AddTo(bs, x)|
  {
    var r := AddTo(bs, x);
    var f := FindBlock(bs, parent);
    assert forall j :: 0 <= j < |bs| ==> r[j].parent == bs[j].parent;
    assert |bs| <= |r| <= |bs| + 1;
    assert |r| == |bs| + 1 ==> r[|bs|].parent == x.parent;
    if f < |bs| {
      FindBlockUnique(r, parent, f);
    } else if x.parent == Some(parent) {
      FindBlockUnique(r, parent, |bs|);
    } else {
      FindBlockUnique(r, parent, |r|);
    }
  }

  /**
   * The block of a parent holds exactly the issues with that parent, in
   * input order, however far apart they were; a parent with no issue has
   * no block.
   */
  lemma {:induction false} GroupedParentBlock(issues: seq<Issue>, parent: Issue)
    ensures var g := Grouped(issues);
      Filter(issues, HasParent(parent)) == if FindBlock(g, parent) < |g| then g[FindBlock(g, parent)].issues else []
  {
    if issues != [] {
      GroupedParentBlock(issues[..|issues| - 1], parent);
      GroupedParentStep(issues, parent);
    }
  }

  lemma GroupedParentStep(issues: seq<Issue>, parent: Issue)
    requires issues != []
    requires var g := Grouped(issues[..|issues| - 1]);
      Filter(issues[..|issues| - 1], HasParent(parent)) == if FindBlock(g, parent) < |g| then g[FindBlock(g, parent)].issues else []
    ensures var g := Grouped(issues);
      Filter(issues, HasParent(parent)) == if FindBlock(g, parent) < |g| then g[FindBlock(g, parent)].issues else []
  {
    var x := issues[|issues| - 1];
    FindBlockAfterAdd(Grouped(issues[..|issues| - 1]), x, parent);
    if x.parent == Some(parent) {
      assert HasParent(parent)(x);
    } else {
      assert !HasParent(parent)(x);
    }
  }

  // ---------------------------------------------------------------------
  // Flattening (get_issues).

  /**
   * The issues of one block as listed: the parent first when it belongs to
   * the project of the block's first issue, then the block's issues.
   */
  function Emit(b: Block): seq<Issue>
  {
    (if b.parent.Some? && b.issues != [] && b.parent.value.project == b.issues[0].project
     then [b.parent.value] else [])
    + b.issues
  }

  function Flatten(bs: seq<Block>): seq<Issue>
  {
    if bs == [] then [] else Flatten(bs[..|bs| - 1]) + Emit(bs[|bs| - 1])
  }

  lemma {:induction false} FlattenAppend(a: seq<Block>, b: seq<Block>)
    ensures Flatten(a + b) == Flatten(a) + Flatten(b)
    decreases |b|
  {
    if b == [] {
      assert a + b == a;
    } else {
      assert (a + b)[..|a + b| - 1] == a + b[..|b| - 1];
      FlattenAppend(a, b[..|b| - 1]);
    }
  }

  /** Reordering blocks reorders the listed issues and nothing else. */
  lemma {:induction false} FlattenPermutation(a: seq<Block>, b: seq<Block>)
    requires multiset(a) == multiset(b)
    ensures multiset(Flatten(a)) == multiset(Flatten(b))
    decreases |a|
  {
    if a != [] {
      var t, x := a[..|a| - 1], a[|a| - 1];
      assert a == t + [x];
      assert x in multiset(b);
      var i := IndexOf(b, x);
      var u, v := b[..i], b[i + 1..];
      RemoveAt(b, i);
      assert multiset(a) == multiset(t) + multiset{x};
      MultisetCancel(multiset(t), multiset(u + v), x);
      FlattenPermutation(t, u + v);
      FlattenAround(u, x, v);
    }
  }

  lemma FlattenAround(u: seq<Block>, x: Block, v: seq<Block>)
    ensures Flatten(u + [x] + v) == Flatten(u) + Emit(x) + Flatten(v)
    ensures Flatten(u + v) == Flatten(u) + Flatten(v)
  {
    FlattenAppend(u, v);
    FlattenAppend(u + [x], v);
    FlattenAppend(u, [x]);
    assert Flatten([x]) == Emit(x) by { assert [x][..0] == []; }
  }

  /** Without parents listed as anchors, the listing is just the blocks' issues. */
  lemma {:induction false} FlattenWithoutAnchors(bs: seq<Block>)
    requires forall i :: 0 <= i < |bs| ==> bs[i].parent.None? || bs[i].issues == [] || bs[i].parent.value.project != bs[i].issues[0].project
    ensures Flatten(bs) == Members(bs)
  {
    if bs != [] {
      FlattenWithoutAnchors(bs[..|bs| - 1]);
    }
  }

  // ---------------------------------------------------------------------
  // Reordering by parent rank within each project (_sort_by_project_rank).

  type Queues = map<Option<string>, seq<Block>>

  /** The blocks of one parent project (None: the orphan blocks), in order. */
  function OfProject(bs: seq<Block>, p: Option<string>): (r: seq<Block>)
    ensures |r| <= |bs|
    ensures forall x :: x in r ==> x in bs && ParentProject(x) == p
  {
    if bs == [] then [] else (if ParentProject(bs[0]) == p then [bs[0]] else []) + OfProject(bs[1..], p)
  }

  lemma {:induction false} OfProjectAppend(a: seq<Block>, b: seq<Block>, p: Option<string>)
    ensures OfProject(a + b, p) == OfProject(a, p) + OfProject(b, p)
  {
    if a == [] {
      assert a + b == b;
    } else {
      assert (a + b)[0] == a[0];
      assert (a + b)[1..] == a[1..] + b;
      OfProjectAppend(a[1..], b, p);
    }
  }

  lemma {:induction false} OfProjectAbsent(bs: seq<Block>, p: Option<string>)
    requires forall i :: 0 <= i < |bs| ==> ParentProject(bs[i]) != p
    ensures OfProject(bs, p) == []
  {
    if bs != [] {
      OfProjectAbsent(bs[1..], p);
    }
  }

  lemma {:induction false} OfProjectCount(bs: seq<Block>, p: Option<string>, x: Block)
    ensures multiset(OfProject(bs, p))[x] == if ParentProject(x) == p then multiset(bs)[x] else 0
  {
    if bs != [] {
      OfProjectCount(bs[1..], p, x);
      OfProjectCountStep(bs, p, x);
    }
  }

  lemma OfProjectCountStep(bs: seq<Block>, p: Option<string>, x: Block)
    requires bs != []
    requires multiset(OfProject(bs[1..], p))[x] == if ParentProject(x) == p then multiset(bs[1..])[x] else 0
    ensures multiset(OfProject(bs, p))[x] == if ParentProject(x) == p then multiset(bs)[x] else 0
  {
    var h, r := bs[0], bs[1..];
    var one := if h == x then 1 else 0;
    assert bs == [h] + r;
    assert multiset(bs)[x] == one + multiset(r)[x];
    if ParentProject(h) == p {
      assert OfProject(bs, p) == [h] + OfProject(r, p);
      assert multiset(OfProject(bs, p))[x] == one + multiset(OfProject(r, p))[x];
    }
  }

  /**
   * The per-project queues the first loop builds: orphan blocks in input
   * order under None, and each project's blocks inserted by parent rank.
   */
  function BuildQueues(bs: seq<Block>): (q: Queues)
    ensures None in q
  {
    if bs == [] then map[None := []]
    else
      var q := BuildQueues(bs[..|bs| - 1]);
      var b := bs[|bs| - 1];
      var p := ParentProject(b);
      if p.None? then q[None := q[None] + [b]]
      else q[p := InsertBy(if p in q then q[p] else [], b, ParentRank)]
  }

  /** What a project's queue should be: its blocks, stably sorted by parent rank (orphans left as they are). */
  function ProjectQueue(bs: seq<Block>, p: Option<string>): seq<Block>
  {
    if p.None? then OfProject(bs, None) else SortBy(OfProject(bs, p), ParentRank)
  }

  /** Each slot takes the front of its own project's queue. */
  function Rethread(slots: seq<Block>, q: Queues): seq<Block>
    decreases |slots|
  {
    if slots == [] then []
    else
      var p := ParentProject(slots[0]);
      if p in q && q[p] != [] then [q[p][0]] + Rethread(slots[1..], q[p := q[p][1..]])
      else []
  }

  function ByProjectRank(bs: seq<Block>): seq<Block>
  {
    Rethread(bs, BuildQueues(bs))
  }

  ghost predicate HasProject(bs: seq<Block>, p: Option<string>)
  {
    exists i :: 0 <= i < |bs| && ParentProject(bs[i]) == p
  }

  /** The queue of one project, built by insertion, is that project's stable sort. */
  lemma {:induction false} BuildQueuesEntry(bs: seq<Block>, p: Option<string>)
    ensures p in BuildQueues(bs) <==> p == None || HasProject(bs, p)
    ensures p in BuildQueues(bs) ==> BuildQueues(bs)[p] == ProjectQueue(bs, p)
  {
    if bs != [] {
      var t, b := bs[..|bs| - 1], bs[|bs| - 1];
      BuildQueuesEntry(t, p);
      assert bs == t + [b];
      OfProjectAppend(t, [b], p);
      assert OfProject([b], p) == if ParentProject(b) == p then [b] else [];
      if ParentProject(b) == p {
        QueueOfAddedBlock(t, b);
      } else {
        QueueOfOtherProject(t, b, p);
      }
    }
  }

  lemma QueueOfAddedBlock(t: seq<Block>, b: Block)
    requires OfProject(t + [b], ParentProject(b)) == OfProject(t, ParentProject(b)) + [b]
    requires ParentProject(b) in BuildQueues(t) <==> ParentProject(b) == None || HasProject(t, ParentProject(b))
    requires ParentProject(b) in BuildQueues(t) ==> BuildQueues(t)[ParentProject(b)] == ProjectQueue(t, ParentProject(b))
    ensures ParentProject(b) in BuildQueues(t + [b])
    ensures BuildQueues(t + [b])[ParentProject(b)] == ProjectQueue(t + [b], ParentProject(b))
  {
    var p := ParentProject(b);
    var bs := t + [b];
    assert bs[..|bs| - 1] == t;
    if p.Some? {
      if p !in BuildQueues(t) {
        OfProjectAbsent(t, p);
      }
      var own := OfProject(bs, p);
      var q := BuildQueues(t);
      assert own[..|own| - 1] == OfProject(t, p) && own[|own| - 1] == b;
      assert SortBy(own, ParentRank) == InsertBy(SortBy(OfProject(t, p), ParentRank), b, ParentRank);
      assert BuildQueues(bs) == q[p := InsertBy(if p in q then q[p] else [], b, ParentRank)];
    }
  }

  lemma QueueOfOtherProject(t: seq<Block>, b: Block, p: Option<string>)
    requires ParentProject(b) != p
    requires OfProject(t + [b], p) == OfProject(t, p)
    requires p in BuildQueues(t) <==> p == None || HasProject(t, p)
    requires p in BuildQueues(t) ==> BuildQueues(t)[p] == ProjectQueue(t, p)
    ensures p in BuildQueues(t + [b]) <==> p == None || HasProject(t + [b], p)
    ensures p in BuildQueues(t + [b]) ==> BuildQueues(t + [b])[p] == ProjectQueue(t + [b], p)
  {
    var bs := t + [b];
    assert bs[..|bs| - 1] == t;
    HasProjectSnoc(t, b, p);
    OtherProjectUntouched(t, b, p);
    assert ProjectQueue(bs, p) == ProjectQueue(t, p);
  }

  /** Adding a block of another project leaves p's queue as it was. */
  lemma OtherProjectUntouched(t: seq<Block>, b: Block, p: Option<string>)
    requires ParentProject(b) != p
    ensures p in BuildQueues(t + [b]) <==> p in BuildQueues(t)
    ensures p in BuildQueues(t) ==> BuildQueues(t + [b])[p] == BuildQueues(t)[p]
  {
    assert (t + [b])[..|t|] == t;
  }

  lemma HasProjectSnoc(t: seq<Block>, b: Block, p: Option<string>)
    requires ParentProject(b) != p
    ensures HasProject(t + [b], p) <==> HasProject(t, p)
  {
    var bs := t + [b];
    if HasProject(bs, p) {
      var i :| 0 <= i < |bs| && ParentProject(bs[i]) == p;
      assert t[i] == bs[i];
    }
    if HasProject(t, p) {
      var i :| 0 <= i < |t| && ParentProject(t[i]) == p;
      assert t[i] == bs[i];
    }
  }

  /** The queues fit the slots: every slot's project has a queue, of exactly the right length and contents. */
  ghost predicate QueuesFit(slots: seq<Block>, q: Queues)
  {
    && (forall i :: 0 <= i < |slots| ==> ParentProject(slots[i]) in q)
    && (forall p :: p in q ==> |q[p]| == |OfProject(slots, p)|)
    && (forall p, j :: p in q && 0 <= j < |q[p]| ==> ParentProject(q[p][j]) == p)
  }

  lemma BuildQueuesFit(bs: seq<Block>)
    ensures QueuesFit(bs, BuildQueues(bs))
  {
    var q := BuildQueues(bs);
    forall i | 0 <= i < |bs| ensures ParentProject(bs[i]) in q {
      BuildQueuesEntry(bs, ParentProject(bs[i]));
    }
    forall p | p in q ensures |q[p]| == |OfProject(bs, p)| {
      BuildQueuesEntry(bs, p);
      SortByPermutation(OfProject(bs, p), ParentRank);
    }
    forall p, j | p in q && 0 <= j < |q[p]| ensures ParentProject(q[p][j]) == p {
      BuildQueuesEntry(bs, p);
      SortByPermutation(OfProject(bs, p), ParentRank);
      assert q[p][j] in multiset(q[p]);
    }
  }

  /** Popping the front slot: its queue is non-empty and the rest still fits. */
  lemma QueuesFitStep(slots: seq<Block>, q: Queues)
    requires QueuesFit(slots, q) && slots != []
    ensures ParentProject(slots[0]) in q && q[ParentProject(slots[0])] != []
    ensures QueuesFit(slots[1..], q[ParentProject(slots[0]) := q[ParentProject(slots[0])][1..]])
  {
    var p0 := ParentProject(slots[0]);
    var q' := q[p0 := q[p0][1..]];
    var rest := slots[1..];
    assert forall i :: 0 <= i < |rest| ==> rest[i] == slots[i + 1];
    PoppedQueuesKeepProjects(q, p0);
  }

  /** One slot of Rethread: the slot's project queue gives up its front block. */
  lemma RethreadStep(slots: seq<Block>, q: Queues, p: Option<string>)
    requires QueuesFit(slots, q) && slots != [] && p == ParentProject(slots[0])
    ensures p in q && q[p] != []
    ensures QueuesFit(slots[1..], q[p := q[p][1..]])
    ensures Rethread(slots, q) == [q[p][0]] + Rethread(slots[1..], q[p := q[p][1..]])
  {
    QueuesFitStep(slots, q);
  }

  lemma PoppedQueuesKeepProjects(q: Queues, p0: Option<string>)
    requires p0 in q && q[p0] != []
    requires forall p, j :: p in q && 0 <= j < |q[p]| ==> ParentProject(q[p][j]) == p
    ensures var q' := q[p0 := q[p0][1..]];
      forall p, j :: p in q' && 0 <= j < |q'[p]| ==> ParentProject(q'[p][j]) == p
  {
    var q' := q[p0 := q[p0][1..]];
    forall p, j | p in q' && 0 <= j < |q'[p]| ensures ParentProject(q'[p][j]) == p {
      if p == p0 {
        assert q'[p][j] == q[p][j + 1];
      }
    }
  }

  lemma {:induction false} RethreadSlots(slots: seq<Block>, q: Queues)
    requires QueuesFit(slots, q)
    ensures |Rethread(slots, q)| == |slots|
    ensures forall i :: 0 <= i < |slots| ==> ParentProject(Rethread(slots, q)[i]) == ParentProject(slots[i])
    decreases |slots|
  {
    if slots != [] {
      var p0 := ParentProject(slots[0]);
      QueuesFitStep(slots, q);
      var q' := q[p0 := q[p0][1..]];
      var rest := slots[1..];
      RethreadSlots(rest, q');
      var r := Rethread(slots, q);
      assert r == [q[p0][0]] + Rethread(rest, q');
      forall i | 0 <= i < |slots| ensures ParentProject(r[i]) == ParentProject(slots[i]) {
        if i > 0 {
          assert r[i] == Rethread(rest, q')[i - 1];
          assert slots[i] == rest[i - 1];
        }
      }
    }
  }

  /** One turn of the slot-filling loop: moving a slot's block into the output leaves the rethreaded whole unchanged. */
  lemma FillStep(ranked: seq<Block>, slots: seq<Block>, q: Queues, p: Option<string>)
    requires QueuesFit(slots, q) && slots != [] && p == ParentProject(slots[0])
    ensures p in q && q[p] != []
    ensures QueuesFit(slots[1..], q[p := q[p][1..]])
    ensures (ranked + [q[p][0]]) + Rethread(slots[1..], q[p := q[p][1..]]) == ranked + Rethread(slots, q)
  {
    RethreadStep(slots, q, p);
  }

  lemma {:induction false} RethreadOfProject(slots: seq<Block>, q: Queues, p: Option<string>)
    requires QueuesFit(slots, q) && p in q
    ensures OfProject(Rethread(slots, q), p) == q[p]
    decreases |slots|
  {
    if slots == [] {
      assert |q[p]| == |OfProject(slots, p)|;
    } else {
      var p0 := ParentProject(slots[0]);
      RethreadStep(slots, q, p0);
      var q' := q[p0 := q[p0][1..]];
      RethreadOfProject(slots[1..], q', p);
      OfProjectCons(q[p0][0], Rethread(slots[1..], q'), p);
      if p == p0 {
        assert q[p] == [q[p][0]] + q[p][1..];
      }
    }
  }

  lemma OfProjectCons(head: Block, rest: seq<Block>, p: Option<string>)
    ensures OfProject([head] + rest, p) == (if ParentProject(head) == p then [head] else []) + OfProject(rest, p)
  {
    assert ([head] + rest)[0] == head && ([head] + rest)[1..] == rest;
  }

  /** A block only ever lands in a slot that held a block of its own parent project (or an orphan's slot). */
  lemma ByProjectRankKeepsSlots(bs: seq<Block>)
    ensures |ByProjectRank(bs)| == |bs|
    ensures forall i :: 0 <= i < |bs| ==> ParentProject(ByProjectRank(bs)[i]) == ParentProject(bs[i])
  {
    BuildQueuesFit(bs);
    RethreadSlots(bs, BuildQueues(bs));
  }

  /** Read project by project, the new order is the stable sort by parent rank; orphans stay as they were. */
  lemma ByProjectRankPerProject(bs: seq<Block>, p: Option<string>)
    ensures OfProject(ByProjectRank(bs), p) == ProjectQueue(bs, p)
  {
    var q := BuildQueues(bs);
    var r := ByProjectRank(bs);
    BuildQueuesFit(bs);
    BuildQueuesEntry(bs, p);
    if p in q {
      RethreadOfProject(bs, q, p);
    } else {
      ByProjectRankKeepsSlots(bs);
      forall i | 0 <= i < |r| ensures ParentProject(r[i]) != p {
        assert ParentProject(bs[i]) != p;
      }
      OfProjectAbsent(r, p);
      OfProjectAbsent(bs, p);
    }
  }

  lemma ByProjectRankOrdersEachProject(bs: seq<Block>, project: string)
    ensures SortedBy(OfProject(ByProjectRank(bs), Some(project)), ParentRank)
    ensures SameOrderPerKey(OfProject(ByProjectRank(bs), Some(project)), OfProject(bs, Some(project)), ParentRank)
  {
    ByProjectRankPerProject(bs, Some(project));
    SortBySorted(OfProject(bs, Some(project)), ParentRank);
    SortByStable(OfProject(bs, Some(project)), ParentRank);
  }

  lemma ByProjectRankKeepsOrphans(bs: seq<Block>)
    ensures OfProject(ByProjectRank(bs), None) == OfProject(bs, None)
  {
    ByProjectRankPerProject(bs, None);
  }

  /** Reordering by project rank only permutes the blocks. */
  lemma ByProjectRankPermutation(bs: seq<Block>)
    ensures multiset(ByProjectRank(bs)) == multiset(bs)
  {
    var r := ByProjectRank(bs);
    forall x ensures multiset(r)[x] == multiset(bs)[x] {
      var p := ParentProject(x);
      ByProjectRankPerProject(bs, p);
      OfProjectCount(r, p, x);
      OfProjectCount(bs, p, x);
      if p.Some? {
        SortByPermutation(OfProject(bs, p), ParentRank);
      }
    }
    assert multiset(r) == multiset(bs);
  }

  // ---------------------------------------------------------------------
  // Promoting blocks whose parent is in progress (_sort_by_status).

  function StatusOrder(bs: seq<Block>): seq<Block>
  {
    Filter(bs, ParentInProgress) + Filter(bs, NotInProgress)
  }

  function StatusKey(b: Block): real
  {
    if ParentInProgress(b) then 0.0 else 1.0
  }

  lemma StatusOrderPermutation(bs: seq<Block>)
    ensures multiset(StatusOrder(bs)) == multiset(bs)
  {
    FilterSplitPermutation(bs, ParentInProgress, NotInProgress);
  }

  /** The partition is the stable sort that puts in-progress blocks first. */
  lemma StatusOrderIsStableSort(bs: seq<Block>)
    ensures StatusOrder(bs) == SortBy(bs, StatusKey)
  {
    var a, b := Filter(bs, ParentInProgress), Filter(bs, NotInProgress);
    var r := a + b;
    assert SortedBy(r, StatusKey) by {
      forall i, j | 0 <= i < j < |r| ensures StatusKey(r[i]) <= StatusKey(r[j]) {
        if i < |a| {
          assert r[i] in a;
        } else {
          assert r[i] in b && r[j] in b;
        }
      }
    }
    SortBySorted(bs, StatusKey);
    SortByStable(bs, StatusKey);
    forall i | 0 <= i < |a| ensures StatusKey(a[i]) == 0.0 {
      assert a[i] in a;
    }
    forall i | 0 <= i < |b| ensures StatusKey(b[i]) == 1.0 {
      assert b[i] in b;
    }
    forall k ensures Select(r, StatusKey, k) == Select(SortBy(bs, StatusKey), StatusKey, k) {
      SelectAppend(a, b, StatusKey, k);
      if k == 0.0 {
        SelectAll(a, StatusKey, k);
        SelectAbsent(b, StatusKey, k);
        SelectAsFilter(bs, StatusKey, k, ParentInProgress);
      } else if k == 1.0 {
        SelectAbsent(a, StatusKey, k);
        SelectAll(b, StatusKey, k);
        SelectAsFilter(bs, StatusKey, k, NotInProgress);
      } else {
        SelectAbsent(a, StatusKey, k);
        SelectAbsent(b, StatusKey, k);
        SelectAbsent(bs, StatusKey, k);
      }
    }
    StableSortIsUnique(r, SortBy(bs, StatusKey), StatusKey);
  }

  /** Blocks.sort: by project rank, then in-progress parents first. */
  function Sorted(bs: seq<Block>): seq<Block>
  {
    StatusOrder(ByProjectRank(bs))
  }

  lemma SortedPermutation(bs: seq<Block>)
    ensures multiset(Sorted(bs)) == multiset(bs)
    ensures |Flatten(Sorted(bs))| == |Flatten(bs)|
  {
    ByProjectRankPermutation(bs);
    StatusOrderPermutation(ByProjectRank(bs));
    FlattenPermutation(Sorted(bs), bs);
    assert |multiset(Flatten(Sorted(bs)))| == |multiset(Flatten(bs))|;
  }

  // ---------------------------------------------------------------------
  // The mutable block list.

  class Blocks {
    var blocks: seq<Block>

    ghost predicate Valid()
      reads this
    {
      WellFormed(blocks)
    }

    constructor (issues: seq<Issue>)
      ensures blocks == Grouped(issues) && Valid()
    {
      blocks := [];
      new;
      for k := 0 to |issues|
        invariant Valid() && blocks == Grouped(issues[..k])
      {
        assert issues[..k + 1][..k] == issues[..k];
        AddIssue(issues[k]);
      }
      assert issues[..|issues|] == issues;
      GroupedShape(issues);
    }

    method AddIssue(issue: Issue)
      requires Valid()
      modifies this
      ensures Valid() && blocks == AddTo(old(blocks), issue)
    {
      if issue.parent.None? {
        blocks := blocks + [Block(None, [issue])];
      } else {
        var i := 0;
        while i < |blocks| && blocks[i].parent != issue.parent
          invariant i <= |blocks|
          invariant forall j :: 0 <= j < i ==> blocks[j].parent != issue.parent
        {
          i := i + 1;
        }
        assert i == FindBlock(blocks, issue.parent.value);
        if i == |blocks| {
          blocks := blocks + [Block(issue.parent, [issue])];
        } else {
          blocks := blocks[i := blocks[i].(issues := blocks[i].issues + [issue])];
        }
      }
    }

    method GetIssues() returns (r: seq<Issue>)
      requires Valid()
      ensures r == Flatten(blocks)
    {
      r := [];
      for k := 0 to |blocks|
        invariant r == Flatten(blocks[..k])
      {
        var b := blocks[k];
        if b.parent.Some? && b.parent.value.project == b.issues[0].project {
          r := r + [b.parent.value];
        }
        r := r + b.issues;
        assert blocks[..k + 1][..k] == blocks[..k];
      }
      assert blocks[..|blocks|] == blocks;
    }

    /** A stable insertion before the first strictly greater parent rank, else at the end. */
    static method InsertBlock(ranking: seq<Block>, block: Block) returns (r: seq<Block>)
      ensures r == InsertBy(ranking, block, ParentRank)
    {
      r := ranking;
      var inserted := false;
      var index := 0;
      while index < |ranking| && !inserted
        invariant index <= |ranking|
        invariant !inserted ==> forall j :: 0 <= j < index ==> ParentRank(ranking[j]) <= ParentRank(block)
        invariant inserted ==> 0 < index && r == InsertBy(ranking, block, ParentRank)
        invariant !inserted ==> r == ranking
      {
        if ParentRank(block) < ParentRank(ranking[index]) {
          r := ranking[..index] + [block] + ranking[index..];
          inserted := true;
          InsertionPointAt(ranking, block, index);
        }
        index := index + 1;
      }
      if !inserted {
        r := r + [block];
        InsertionPointAt(ranking, block, |ranking|);
        assert ranking[|ranking|..] == [];
      }
    }

    static lemma InsertionPointAt(s: seq<Block>, x: Block, i: nat)
      requires i <= |s|
      requires forall j :: 0 <= j < i ==> ParentRank(s[j]) <= ParentRank(x)
      requires i < |s| ==> ParentRank(x) < ParentRank(s[i])
      ensures InsertionPoint(s, x, ParentRank) == i
    {
    }

    /** Fails, changing nothing, on an empty block list: the rank field is looked up on the first block. */
    method SortByProjectRank() returns (ok: bool)
      modifies this
      ensures ok <==> old(blocks) != []
      ensures blocks == if ok then ByProjectRank(old(blocks)) else old(blocks)
    {
      if blocks == [] {
        return false;
      }
      ok := true;
      var queues := RankPerProject(blocks);
      BuildQueuesFit(blocks);
      var ranked := FillSlots(blocks, queues);
      blocks := ranked;
    }

    /** The first loop: a dictionary from parent project to its blocks in rank order. */
    static method RankPerProject(bs: seq<Block>) returns (queues: Queues)
      ensures queues == BuildQueues(bs)
    {
      queues := map[None := []];
      for k := 0 to |bs|
        invariant queues == BuildQueues(bs[..k])
      {
        var b := bs[k];
        assert bs[..k + 1][..k] == bs[..k];
        if b.parent.None? {
          queues := queues[None := queues[None] + [b]];
        } else {
          var project := Some(b.parent.value.project);
          var ranking := if project in queues then queues[project] else [];
          ranking := InsertBlock(ranking, b);
          queues := queues[project := ranking];
        }
      }
      assert bs[..|bs|] == bs;
    }

    /** The second loop: every slot pops the front of its own project's queue. */
    static method FillSlots(bs: seq<Block>, queues: Queues) returns (ranked: seq<Block>)
      requires QueuesFit(bs, queues)
      ensures ranked == Rethread(bs, queues)
    {
      var q := queues;
      var slots := bs;
      ranked := [];
      while slots != []
        invariant QueuesFit(slots, q)
        invariant ranked + Rethread(slots, q) == Rethread(bs, queues)
        decreases |slots|
      {
        var project := ParentProject(slots[0]);
        FillStep(ranked, slots, q, project);
        ranked := ranked + [q[project][0]];
        q := q[project := q[project][1..]];
        slots := slots[1..];
      }
    }

    method SortByStatus()
      modifies this
      ensures blocks == StatusOrder(old(blocks))
    {
      var inprogress := [];
      var others := [];
      for k := 0 to |blocks|
        invariant inprogress == Filter(blocks[..k], ParentInProgress)
        invariant others == Filter(blocks[..k], NotInProgress)
      {
        assert blocks[..k + 1][..k] == blocks[..k];
        if ParentInProgress(blocks[k]) {
          inprogress := inprogress + [blocks[k]];
        } else {
          others := others + [blocks[k]];
        }
      }
      assert blocks[..|blocks|] == blocks;
      blocks := inprogress + others;
    }

    method Sort() returns (ok: bool)
      modifies this
      ensures ok <==> old(blocks) != []
      ensures blocks == if ok then Sorted(old(blocks)) else old(blocks)
    {
      ok := SortByProjectRank();
      if ok {
        SortByStatus();
      }
    }
  }

  lemma SortedWellFormed(bs: seq<Block>)
    requires WellFormed(bs)
    ensures WellFormed(Sorted(bs))
  {
    SortedPermutation(bs);
    forall i | 0 <= i < |Sorted(bs)| ensures Sorted(bs)[i].issues != [] {
      assert Sorted(bs)[i] in multiset(bs);
    }
  }

  lemma GroupedNonEmpty(issues: seq<Issue>)
    ensures Grouped(issues) == [] <==> issues == []
  {
    GroupedKeepsEveryIssue(issues);
    if Grouped(issues) == [] {
      assert multiset(issues) == multiset{};
    }
  }

  /**
   * check_rank: group, list, sort, list again, and apply the difference.
   * An empty issue list fails before any move.
   */
  method CheckRank(issues: seq<Issue>, dryRun: bool) returns (ok: bool, ranked: seq<Write>, listed: seq<Key>)
    ensures ok <==> issues != []
    ensures !ok ==> ranked == [] && listed == []
    ensures ok ==> |Flatten(Sorted(Grouped(issues)))| == |Flatten(Grouped(issues))|
    ensures ok ==> ranked == (if dryRun then [] else MoveEmitter.Moves(Flatten(Grouped(issues)), Flatten(Sorted(Grouped(issues)))))
    ensures ok ==> listed == (if dryRun then MoveEmitter.MovedKeys(Flatten(Grouped(issues)), Flatten(Sorted(Grouped(issues)))) else [])
  {
    var blocks := new Blocks(issues);
    var oldRanking := blocks.GetIssues();
    ghost var grouped := blocks.blocks;
    ok := blocks.Sort();
    GroupedNonEmpty(issues);
    if !ok {
      return false, [], [];
    }
    SortedWellFormed(grouped);
    var newRanking := blocks.GetIssues();
    SortedPermutation(grouped);
    ranked, listed := MoveEmitter.SetRank(oldRanking, newRanking, dryRun);
  }
}
