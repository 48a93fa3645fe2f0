/**
 * The older re-ranking (src/rules/rank.py). One pass records, in input
 * order, a slot per orphan issue and per first appearance of a parent,
 * together with per-project queues (orphans under None, parents under their
 * project). Each project's parent queue is then sorted by rank, and each
 * slot takes the front of its own project's queue: an orphan is ranked
 * alone, a parent's block is all of its children, anchored after the
 * parent when they share its project. Every placed issue is ranked directly
 * after whatever was placed or anchored just before it.
 */
module LegacyRank {
  import opened Common
  import opened Sorting

  type Slots = seq<Option<string>>

  type Queues = map<Option<string>, seq<Issue>>

  datatype RankingData = RankingData(slots: Slots, queues: Queues)

  /** The project an issue's block belongs to: its parent's project, None for an orphan. */
  function BlockProject(issue: Issue): Option<string>
  {
    if issue.parent.None? then None else Some(issue.parent.value.project)
  }

  /** One iteration of _get_ranking_data's loop. */
  function Record(d: RankingData, x: Issue): RankingData
  {
    if x.parent.None? then
      RankingData(d.slots + [None], d.queues[None := (if None in d.queues then d.queues[None] else []) + [x]])
    else
      var p := BlockProject(x);
      var queue := if p in d.queues then d.queues[p] else [];
      if x.parent.value in queue then RankingData(d.slots, d.queues[p := queue])
      else RankingData(d.slots + [p], d.queues[p := queue + [x.parent.value]])
  }

  /** _get_ranking_data over the issues in input order. */
  function GetRankingData(issues: seq<Issue>): RankingData
  {
    if issues == [] then RankingData([], map[None := []])
    else Record(GetRankingData(issues[..|issues| - 1]), issues[|issues| - 1])
  }

  /** The orphan issues, in input order. */
  function Orphans(issues: seq<Issue>): (r: seq<Issue>)
    ensures forall x :: x in r <==> x in issues && x.parent.None?
  {
    if issues == [] then []
    else Orphans(issues[..|issues| - 1])
         + (if issues[|issues| - 1].parent.None? then [issues[|issues| - 1]] else [])
  }

  /** The issues whose parent is `parent`, in input order (the block of that parent). */
  function Children(issues: seq<Issue>, parent: Issue): (r: seq<Issue>)
    ensures forall x :: x in r <==> x in issues && x.parent == Some(parent)
  {
    if issues == [] then []
    else Children(issues[..|issues| - 1], parent)
         + (if issues[|issues| - 1].parent == Some(parent) then [issues[|issues| - 1]] else [])
  }

  function RankKey(issue: Issue): real
  {
    issue.rank as real
  }

  /** _sort_parents_by_rank_per_project: every project queue but None's, stably sorted by rank. */
  function SortQueues(q: Queues): Queues
  {
    map p | p in q :: if p == None then q[p] else SortBy(q[p], RankKey)
  }

  /** Number of slots of project p among s. */
  function Count(s: Slots, p: Option<string>): nat
  {
    if s == [] then 0 else Count(s[..|s| - 1], p) + (if s[|s| - 1] == p then 1 else 0)
  }

  /** Every slot has a queue long enough for all the slots of its project. */
  ghost predicate Fits(slots: Slots, q: Queues)
  {
    forall k :: 0 <= k < |slots| ==> slots[k] in q && Count(slots, slots[k]) <= |q[slots[k]]|
  }

  lemma {:induction false} CountPrefix(s: Slots, k: nat, p: Option<string>)
    requires k <= |s|
    ensures Count(s[..k], p) <= Count(s, p)
    ensures k < |s| && s[k] == p ==> Count(s[..k], p) < Count(s, p)
    decreases |s|
  {
    if k < |s| {
      assert s[..|s| - 1][..k] == s[..k];
      CountPrefix(s[..|s| - 1], k, p);
    } else {
      assert s[..k] == s;
    }
  }

  /**
   * The queue entry slot k takes: slot k is the Count-th slot of its project
   * so far, and every earlier one popped one entry of the same queue.
   */
  function Entry(slots: Slots, q: Queues, k: nat): Issue
    requires Fits(slots, q) && k < |slots|
  {
    CountPrefix(slots, k, slots[k]);
    q[slots[k]][Count(slots[..k], slots[k])]
  }

  datatype Step = Anchor(issue: Issue) | Place(issue: Issue)

  function PlaceAll(s: seq<Issue>): (r: seq<Step>)
    ensures |r| == |s| && forall i :: 0 <= i < |s| ==> r[i] == Place(s[i])
  {
    seq(|s|, i requires 0 <= i < |s| => Place(s[i]))
  }

  /**
   * The steps of one slot: an orphan is placed alone; a parent's children
   * are placed in input order, after the parent as anchor when the parent's
   * project is the first child's.
   */
  function BlockSteps(issues: seq<Issue>, p: Option<string>, e: Issue): seq<Step>
  {
    if p == None then [Place(e)]
    else
      var children := Children(issues, e);
      (if children != [] && e.project == children[0].project then [Anchor(e)] else []) + PlaceAll(children)
  }

  /** The steps of the first n slots. */
  function Stream(issues: seq<Issue>, slots: Slots, q: Queues, n: nat): seq<Step>
    requires Fits(slots, q) && n <= |slots|
  {
    if n == 0 then []
    else Stream(issues, slots, q, n - 1) + BlockSteps(issues, slots[n - 1], Entry(slots, q, n - 1))
  }

  /** Each placed issue is ranked directly after the step before it, if any. */
  function MovesOf(s: seq<Step>): seq<Write>
  {
    if |s| <= 1 then []
    else MovesOf(s[..|s| - 1])
         + (if s[|s| - 1].Place? then [RankAfter(s[|s| - 1].issue.key, s[|s| - 2].issue.key)] else [])
  }

  function Last(s: seq<Step>): Option<Issue>
  {
    if s == [] then None else Some(s[|s| - 1].issue)
  }

  /** Every slot names a queue, and each queue has one entry per slot of its project. */
  ghost predicate SlotsCounted(d: RankingData)
  {
    && None in d.queues
    && (forall k :: 0 <= k < |d.slots| ==> d.slots[k] in d.queues)
    && (forall p :: p in d.queues ==> Count(d.slots, p) == |d.queues[p]|)
  }

  /** The None queue holds the orphans in input order. */
  ghost predicate OrphanQueue(issues: seq<Issue>, d: RankingData)
  {
    None in d.queues && d.queues[None] == Orphans(issues)
  }

  /** A project's queue holds parents of that project, each once, each with a child among the issues. */
  ghost predicate ParentQueues(issues: seq<Issue>, d: RankingData)
  {
    forall p :: p in d.queues && p != None ==>
      Distinct(d.queues[p])
      && forall e :: e in d.queues[p] ==> Some(e.project) == p && Children(issues, e) != []
  }

  /** Every issue with a parent finds that parent in its project's queue. */
  ghost predicate ParentsQueued(issues: seq<Issue>, d: RankingData)
  {
    forall x :: x in issues && x.parent.Some? ==>
      BlockProject(x) in d.queues && x.parent.value in d.queues[BlockProject(x)]
  }

  /** The data are consistent with the issues they were built from. */
  ghost predicate Consistent(issues: seq<Issue>, d: RankingData)
  {
    SlotsCounted(d) && OrphanQueue(issues, d) && ParentQueues(issues, d) && ParentsQueued(issues, d)
  }

  // ---------------------------------------------------------------------
  // The three steps, as the source performs them.

  /** _get_ranking_data: one loop over the issues. */
  method RankingDataOf(issues: seq<Issue>) returns (slots: Slots, queues: Queues)
    ensures RankingData(slots, queues) == GetRankingData(issues)
  {
    slots, queues := [], map[None := []];
    for k := 0 to |issues|
      invariant RankingData(slots, queues) == GetRankingData(issues[..k])
      invariant None in queues
    {
      assert issues[..k + 1][..k] == issues[..k];
      var issue := issues[k];
      if issue.parent.None? {
        slots := slots + [None];
        queues := queues[None := queues[None] + [issue]];
      } else {
        var project := Some(issue.parent.value.project);
        if project !in queues {
          queues := queues[project := []];
        }
        if issue.parent.value !in queues[project] {
          slots := slots + [project];
          queues := queues[project := queues[project] + [issue.parent.value]];
        }
      }
    }
    assert issues[..|issues|] == issues;
  }

  /** _sort_parents_by_rank_per_project: each queue but None's is replaced by its sorted copy. */
  method SortParentsByRankPerProject(queues: Queues) returns (sorted: Queues)
    ensures sorted == SortQueues(queues)
  {
    sorted := queues;
    var todo := queues.Keys;
    while todo != {}
      invariant todo <= queues.Keys && sorted.Keys == queues.Keys
      invariant forall p :: p in queues && p !in todo ==> sorted[p] == SortQueues(queues)[p]
      invariant forall p :: p in todo ==> sorted[p] == queues[p]
      decreases todo
    {
      var p :| p in todo;
      if p != None {
        sorted := sorted[p := SortBy(sorted[p], RankKey)];
      }
      todo := todo - {p};
    }
  }

  /** The queues left after the first k slots each popped the front of their project's queue. */
  ghost predicate Popped(slots: Slots, queues: Queues, k: nat, q: Queues)
    requires k <= |slots|
  {
    && q.Keys == queues.Keys
    && forall p :: p in queues ==> Count(slots[..k], p) <= |queues[p]| && q[p] == queues[p][Count(slots[..k], p)..]
  }

  /**
   * _set_rank: each slot pops the front of its project's queue and ranks the
   * issues of that block one after the other.
   */
  method SetRank(issues: seq<Issue>, slots: Slots, queues: Queues) returns (writes: seq<Write>)
    requires Fits(slots, queues)
    requires forall k :: 0 <= k < |slots| && slots[k] != None ==> Children(issues, Entry(slots, queues, k)) != []
    ensures writes == MovesOf(Stream(issues, slots, queues, |slots|))
  {
    var previous: Option<Issue> := None;
    var q := queues;
    writes := [];
    PoppedNone(slots, queues);
    for k := 0 to |slots|
      invariant Popped(slots, queues, k, q)
      invariant writes == MovesOf(Stream(issues, slots, queues, k))
      invariant previous == Last(Stream(issues, slots, queues, k))
    {
      var project := slots[k];
      PopStep(slots, queues, k, q);
      var entry := q[project][0];
      q := q[project := q[project][1..]];
      StreamStep(issues, slots, queues, k);
      writes, previous := RankSlot(issues, project, entry, writes, previous, Stream(issues, slots, queues, k));
    }
  }

  /** One slot of _set_rank: the block of the popped entry, anchored at the entry when it shares the project. */
  method RankSlot(issues: seq<Issue>, project: Option<string>, entry: Issue,
                  writes0: seq<Write>, previous0: Option<Issue>, ghost before: seq<Step>)
    returns (writes: seq<Write>, previous: Option<Issue>)
    requires project != None ==> Children(issues, entry) != []
    requires writes0 == MovesOf(before) && previous0 == Last(before)
    ensures writes == MovesOf(before + BlockSteps(issues, project, entry))
    ensures previous == Last(before + BlockSteps(issues, project, entry))
  {
    var block: seq<Issue>;
    ghost var start := before;
    previous := previous0;
    if project == None {
      block := [entry];
    } else {
      block := Children(issues, entry);
      if entry.project == block[0].project {
        AnchorStep(before, entry);
        previous := Some(entry);
        AppendAssoc(before, [Anchor(entry)], PlaceAll(block));
        start := before + [Anchor(entry)];
      }
    }
    assert start + PlaceAll(block) == before + BlockSteps(issues, project, entry);
    writes, previous := RankBlock(block, writes0, previous, start);
  }

  /** The inner loop of _set_rank: each issue of a block is ranked after the one before it. */
  method RankBlock(block: seq<Issue>, writes0: seq<Write>, previous0: Option<Issue>, ghost before: seq<Step>)
    returns (writes: seq<Write>, previous: Option<Issue>)
    requires writes0 == MovesOf(before) && previous0 == Last(before)
    ensures writes == MovesOf(before + PlaceAll(block))
    ensures previous == Last(before + PlaceAll(block))
  {
    writes, previous := writes0, previous0;
    assert before + PlaceAll(block[..0]) == before;
    for j := 0 to |block|
      invariant writes == MovesOf(before + PlaceAll(block[..j]))
      invariant previous == Last(before + PlaceAll(block[..j]))
    {
      PlaceStep(before, block, j);
      if previous.Some? {
        writes := writes + [RankAfter(block[j].key, previous.value.key)];
      }
      previous := Some(block[j]);
    }
    assert block[..|block|] == block;
  }

  /**
   * check_rank of src/rules/rank.py: read the ranking data, sort the parent
   * queues, and rank unless in a dry run. The rank field is looked up on the
   * first issue, so an empty list fails.
   */
  method CheckRank(issues: seq<Issue>, dryRun: bool) returns (ok: bool, writes: seq<Write>)
    ensures ok <==> issues != []
    ensures !ok || dryRun ==> writes == []
    ensures ok && !dryRun ==> Fits(GetRankingData(issues).slots, SortQueues(GetRankingData(issues).queues))
    ensures ok && !dryRun ==>
      var d := GetRankingData(issues);
      writes == MovesOf(Stream(issues, d.slots, SortQueues(d.queues), |d.slots|))
  {
    if issues == [] {
      return false, [];
    }
    var slots, queues := RankingDataOf(issues);
    var sorted := SortParentsByRankPerProject(queues);
    ok, writes := true, [];
    if !dryRun {
      GetRankingDataConsistent(issues);
      SortQueuesConsistent(issues, RankingData(slots, queues));
      ConsistentFits(issues, RankingData(slots, sorted));
      writes := SetRank(issues, slots, sorted);
    }
  }

  // ---------------------------------------------------------------------
  // Steps of the proofs about SetRank.

  lemma PoppedNone(slots: Slots, queues: Queues)
    ensures Popped(slots, queues, 0, queues)
  {
    assert slots[..0] == [];
    forall p | p in queues ensures queues[p][0..] == queues[p] {}
  }

  lemma PopStep(slots: Slots, queues: Queues, k: nat, q: Queues)
    requires Fits(slots, queues) && k < |slots| && Popped(slots, queues, k, q)
    ensures slots[k] in q && q[slots[k]] != [] && q[slots[k]][0] == Entry(slots, queues, k)
    ensures Popped(slots, queues, k + 1, q[slots[k] := q[slots[k]][1..]])
  {
    var p := slots[k];
    CountPrefix(slots, k, p);
    CountPrefix(slots, k + 1, p);
    assert slots[..k + 1] == slots[..k] + [p];
    forall r ensures Count(slots[..k + 1], r) == Count(slots[..k], r) + (if p == r then 1 else 0) {
      CountSnoc(slots[..k], p, r);
    }
    var q' := q[p := q[p][1..]];
    forall r | r in queues
      ensures Count(slots[..k + 1], r) <= |queues[r]| && q'[r] == queues[r][Count(slots[..k + 1], r)..]
    {
      if r == p {
        assert Count(slots[..k + 1], r) <= Count(slots, r);
      }
    }
  }

  lemma AppendAssoc<T>(a: seq<T>, b: seq<T>, c: seq<T>)
    ensures a + (b + c) == (a + b) + c
  {
  }

  lemma StreamStep(issues: seq<Issue>, slots: Slots, q: Queues, k: nat)
    requires Fits(slots, q) && k < |slots|
    ensures Stream(issues, slots, q, k + 1) == Stream(issues, slots, q, k) + BlockSteps(issues, slots[k], Entry(slots, q, k))
  {
  }

  lemma AnchorStep(before: seq<Step>, e: Issue)
    ensures MovesOf(before + [Anchor(e)]) == MovesOf(before)
    ensures Last(before + [Anchor(e)]) == Some(e)
  {
    assert (before + [Anchor(e)])[..|before|] == before;
  }

  lemma PlaceStep(before: seq<Step>, block: seq<Issue>, j: nat)
    requires j < |block|
    ensures var s := before + PlaceAll(block[..j]);
      var s' := before + PlaceAll(block[..j + 1]);
      s' == s + [Place(block[j])]
      && MovesOf(s') == MovesOf(s) + (if Last(s).Some? then [RankAfter(block[j].key, Last(s).value.key)] else [])
      && Last(s') == Some(block[j])
  {
    var s := before + PlaceAll(block[..j]);
    assert PlaceAll(block[..j + 1]) == PlaceAll(block[..j]) + [Place(block[j])];
    assert (s + [Place(block[j])])[..|s|] == s;
  }

  // ---------------------------------------------------------------------
  // Properties of the ranking data.

  lemma {:induction false} CountSnoc(s: Slots, x: Option<string>, p: Option<string>)
    ensures Count(s + [x], p) == Count(s, p) + (if x == p then 1 else 0)
  {
    assert (s + [x])[..|s|] == s;
  }

  lemma {:induction false} CountAbsent(s: Slots, p: Option<string>)
    requires forall k :: 0 <= k < |s| ==> s[k] != p
    ensures Count(s, p) == 0
    decreases |s|
  {
    if s != [] {
      CountAbsent(s[..|s| - 1], p);
    }
  }

  lemma ChildrenSnoc(t: seq<Issue>, x: Issue, e: Issue)
    ensures Children(t + [x], e) == Children(t, e) + (if x.parent == Some(e) then [x] else [])
  {
    assert (t + [x])[..|t|] == t;
  }

  lemma OrphansSnoc(t: seq<Issue>, x: Issue)
    ensures Orphans(t + [x]) == Orphans(t) + (if x.parent.None? then [x] else [])
  {
    assert (t + [x])[..|t|] == t;
  }

  lemma GetRankingDataSnoc(t: seq<Issue>, x: Issue)
    ensures GetRankingData(t + [x]) == Record(GetRankingData(t), x)
  {
    assert (t + [x])[..|t|] == t;
  }

  /** The ranking data are consistent with the issues they come from. */
  lemma {:induction false} GetRankingDataConsistent(issues: seq<Issue>)
    ensures Consistent(issues, GetRankingData(issues))
    decreases |issues|
  {
    if issues == [] {
      assert Count([], None) == 0;
    } else {
      var t, x := issues[..|issues| - 1], issues[|issues| - 1];
      GetRankingDataConsistent(t);
      assert issues == t + [x];
      var d := GetRankingData(t);
      GetRankingDataSnoc(t, x);
      SlotsCountedStep(d, x);
      OrphanQueueStep(t, x, d);
      ParentQueuesStep(t, x, d);
      ParentsQueuedStep(t, x, d);
    }
  }

  lemma SlotsCountedStep(d: RankingData, x: Issue)
    requires SlotsCounted(d)
    ensures SlotsCounted(Record(d, x))
  {
    var p := BlockProject(x);
    var queue := if p in d.queues then d.queues[p] else [];
    if x.parent.Some? && x.parent.value in queue {
      assert Record(d, x) == RankingData(d.slots, d.queues[p := queue]);
      assert d.queues[p := queue] == d.queues;
    } else {
      var e := if x.parent.None? then x else x.parent.value;
      assert Record(d, x) == RankingData(d.slots + [p], d.queues[p := queue + [e]]);
      SlotsCountedAppend(d, p, e);
    }
  }

  /** A new slot for p with one more entry in p's queue keeps the slots counted. */
  lemma SlotsCountedAppend(d: RankingData, p: Option<string>, e: Issue)
    requires SlotsCounted(d)
    ensures var queue := if p in d.queues then d.queues[p] else [];
      SlotsCounted(RankingData(d.slots + [p], d.queues[p := queue + [e]]))
  {
    var queue := if p in d.queues then d.queues[p] else [];
    var d' := RankingData(d.slots + [p], d.queues[p := queue + [e]]);
    if p !in d.queues {
      CountAbsent(d.slots, p);
    }
    forall r | r in d'.queues ensures Count(d'.slots, r) == |d'.queues[r]| {
      CountSnoc(d.slots, p, r);
    }
  }

  lemma OrphanQueueStep(t: seq<Issue>, x: Issue, d: RankingData)
    requires OrphanQueue(t, d)
    ensures OrphanQueue(t + [x], Record(d, x))
  {
    OrphansSnoc(t, x);
  }

  lemma ParentQueuesStep(t: seq<Issue>, x: Issue, d: RankingData)
    requires ParentQueues(t, d)
    ensures ParentQueues(t + [x], Record(d, x))
  {
    var d' := Record(d, x);
    forall p | p in d'.queues && p != None
      ensures Distinct(d'.queues[p])
      ensures forall e :: e in d'.queues[p] ==> Some(e.project) == p && Children(t + [x], e) != []
    {
      ParentQueueStep(t, x, d, p);
    }
  }

  lemma ParentQueueStep(t: seq<Issue>, x: Issue, d: RankingData, p: Option<string>)
    requires ParentQueues(t, d)
    requires p in Record(d, x).queues && p != None
    ensures Distinct(Record(d, x).queues[p])
    ensures forall e :: e in Record(d, x).queues[p] ==> Some(e.project) == p && Children(t + [x], e) != []
  {
    var queue := if p in d.queues then d.queues[p] else [];
    var queue' := Record(d, x).queues[p];
    if x.parent.Some? && p == BlockProject(x) && x.parent.value !in queue {
      assert queue' == queue + [x.parent.value];
      forall i | 0 <= i < |queue| ensures queue[i] != x.parent.value {}
    } else {
      assert queue' == queue;
    }
    forall e | e in queue' ensures Some(e.project) == p && Children(t + [x], e) != [] {
      ChildrenSnoc(t, x, e);
    }
  }

  lemma ParentsQueuedStep(t: seq<Issue>, x: Issue, d: RankingData)
    requires ParentsQueued(t, d)
    ensures ParentsQueued(t + [x], Record(d, x))
  {
    var d' := Record(d, x);
    forall y | y in t + [x] && y.parent.Some?
      ensures BlockProject(y) in d'.queues && y.parent.value in d'.queues[BlockProject(y)]
    {
      if y != x {
        assert y in t;
      }
    }
  }

  /** Sorting a project queue keeps its entries. */
  lemma SortQueuesEntries(q: Queues, p: Option<string>)
    requires p in q
    ensures p in SortQueues(q) && multiset(SortQueues(q)[p]) == multiset(q[p]) && |SortQueues(q)[p]| == |q[p]|
    ensures forall e :: e in SortQueues(q)[p] <==> e in q[p]
  {
    if p != None {
      SortByPermutation(q[p], RankKey);
    }
    var a, b := SortQueues(q)[p], q[p];
    assert |a| == |multiset(a)| == |multiset(b)| == |b|;
    forall e ensures e in a <==> e in b {
      assert e in a <==> e in multiset(a);
      assert e in b <==> e in multiset(b);
    }
  }

  /** Sorting the project queues keeps the data consistent. */
  lemma SortQueuesConsistent(issues: seq<Issue>, d: RankingData)
    requires Consistent(issues, d)
    ensures Consistent(issues, RankingData(d.slots, SortQueues(d.queues)))
  {
    var q, q' := d.queues, SortQueues(d.queues);
    var d' := RankingData(d.slots, q');
    forall p | p in q
      ensures multiset(q'[p]) == multiset(q[p]) && |q'[p]| == |q[p]|
      ensures forall e :: e in q'[p] <==> e in q[p]
    {
      SortQueuesEntries(q, p);
    }
    forall p | p in q' && p != None ensures Distinct(q'[p]) {
      DistinctPermutation(q[p], q'[p]);
    }
    assert SlotsCounted(d');
    assert ParentQueues(issues, d');
    assert ParentsQueued(issues, d');
  }

  /** Consistent data meet SetRank's requirements. */
  lemma ConsistentFits(issues: seq<Issue>, d: RankingData)
    requires Consistent(issues, d)
    ensures Fits(d.slots, d.queues)
    ensures forall k :: 0 <= k < |d.slots| && d.slots[k] != None ==> Children(issues, Entry(d.slots, d.queues, k)) != []
  {
    forall k | 0 <= k < |d.slots| && d.slots[k] != None
      ensures Children(issues, Entry(d.slots, d.queues, k)) != []
    {
      EntryInQueue(d.slots, d.queues, k);
    }
  }

  lemma EntryInQueue(slots: Slots, q: Queues, k: nat)
    requires Fits(slots, q) && k < |slots|
    ensures Entry(slots, q, k) in q[slots[k]]
  {
    CountPrefix(slots, k, slots[k]);
  }

  // ---------------------------------------------------------------------
  // What the re-ranking achieves.

  /** The i-th slot of project p exists when p has more than i slots. */
  lemma {:induction false} SlotOf(slots: Slots, p: Option<string>, i: nat) returns (k: nat)
    requires i < Count(slots, p)
    ensures k < |slots| && slots[k] == p && Count(slots[..k], p) == i
    decreases |slots|
  {
    var t := slots[..|slots| - 1];
    if i < Count(t, p) {
      k := SlotOf(t, p, i);
      assert slots[..k] == t[..k];
    } else {
      k := |slots| - 1;
      assert slots[..k] == t;
    }
  }

  lemma {:induction false} InStream(issues: seq<Issue>, slots: Slots, q: Queues, k: nat, n: nat, st: Step)
    requires Fits(slots, q) && k < n <= |slots|
    requires st in BlockSteps(issues, slots[k], Entry(slots, q, k))
    ensures st in Stream(issues, slots, q, n)
    decreases n
  {
    if k < n - 1 {
      InStream(issues, slots, q, k, n - 1, st);
    }
  }

  lemma {:induction false} FromBlock(issues: seq<Issue>, slots: Slots, q: Queues, n: nat, st: Step) returns (k: nat)
    requires Fits(slots, q) && n <= |slots|
    requires st in Stream(issues, slots, q, n)
    ensures k < n && st in BlockSteps(issues, slots[k], Entry(slots, q, k))
    decreases n
  {
    if st in Stream(issues, slots, q, n - 1) {
      k := FromBlock(issues, slots, q, n - 1, st);
    } else {
      k := n - 1;
    }
  }

  lemma PlaceAllMembers(s: seq<Issue>, x: Issue)
    ensures Place(x) in PlaceAll(s) <==> x in s
  {
    if x in s {
      assert PlaceAll(s)[IndexOf(s, x)] == Place(x);
    }
    if Place(x) in PlaceAll(s) {
      var j :| 0 <= j < |s| && PlaceAll(s)[j] == Place(x);
      assert s[j] == x;
    }
  }

  /** The ranking data with every project queue sorted, as _set_rank receives them. */
  function SortedData(issues: seq<Issue>): RankingData
  {
    var d := GetRankingData(issues);
    RankingData(d.slots, SortQueues(d.queues))
  }

  lemma SortedDataConsistent(issues: seq<Issue>)
    ensures Consistent(issues, SortedData(issues))
    ensures Fits(SortedData(issues).slots, SortedData(issues).queues)
  {
    GetRankingDataConsistent(issues);
    SortQueuesConsistent(issues, GetRankingData(issues));
    ConsistentFits(issues, SortedData(issues));
  }

  /** The slot whose block holds x. */
  lemma SlotHolding(issues: seq<Issue>, x: Issue) returns (k: nat)
    requires x in issues
    ensures var d := SortedData(issues);
      Fits(d.slots, d.queues) && k < |d.slots| && Place(x) in BlockSteps(issues, d.slots[k], Entry(d.slots, d.queues, k))
  {
    var d := SortedData(issues);
    SortedDataConsistent(issues);
    var p, e := BlockProject(x), if x.parent.None? then x else x.parent.value;
    assert e in d.queues[p];
    k := SlotOf(d.slots, p, IndexOf(d.queues[p], e));
    CountPrefix(d.slots, k, p);
    assert Entry(d.slots, d.queues, k) == e;
    if p != None {
      PlaceAllMembers(Children(issues, e), x);
    }
  }

  /**
   * Every issue is placed by the re-ranking, and nothing but the issues is:
   * an orphan as its own block, any other issue in its parent's block.
   */
  lemma EveryIssuePlaced(issues: seq<Issue>, x: Issue)
    ensures var d := SortedData(issues);
      Fits(d.slots, d.queues) && (Place(x) in Stream(issues, d.slots, d.queues, |d.slots|) <==> x in issues)
  {
    var d := SortedData(issues);
    SortedDataConsistent(issues);
    var n := |d.slots|;
    if x in issues {
      var k := SlotHolding(issues, x);
      InStream(issues, d.slots, d.queues, k, n, Place(x));
    }
    if Place(x) in Stream(issues, d.slots, d.queues, n) {
      var k := FromBlock(issues, d.slots, d.queues, n, Place(x));
      var e := Entry(d.slots, d.queues, k);
      EntryInQueue(d.slots, d.queues, k);
      if d.slots[k] != None {
        PlaceAllMembers(Children(issues, e), x);
      }
    }
  }

  /**
   * Blocks are only swapped within a project: the k-th block still belongs to
   * the project of the k-th slot, and an orphan slot is still taken by the
   * orphan of that position in input order.
   */
  lemma BlocksKeepTheirProject(issues: seq<Issue>, k: nat)
    requires k < |GetRankingData(issues).slots|
    ensures var d := SortedData(issues);
      Fits(d.slots, d.queues)
      && (d.slots[k] != None ==> Some(Entry(d.slots, d.queues, k).project) == d.slots[k])
      && (d.slots[k] == None ==>
            Count(d.slots[..k], None) < |Orphans(issues)|
            && Entry(d.slots, d.queues, k) == Orphans(issues)[Count(d.slots[..k], None)])
  {
    var d := SortedData(issues);
    SortedDataConsistent(issues);
    EntryInQueue(d.slots, d.queues, k);
    CountPrefix(d.slots, k, d.slots[k]);
  }

  /** Within a project, the parents' blocks come in the order of the parents' ranks. */
  lemma ProjectBlocksFollowRank(issues: seq<Issue>, k1: nat, k2: nat)
    requires k1 < k2 < |GetRankingData(issues).slots|
    requires GetRankingData(issues).slots[k1] == GetRankingData(issues).slots[k2] != None
    ensures var d := SortedData(issues);
      Fits(d.slots, d.queues) && Entry(d.slots, d.queues, k1).rank <= Entry(d.slots, d.queues, k2).rank
  {
    var d := SortedData(issues);
    SortedDataConsistent(issues);
    var p := d.slots[k1];
    var s := d.slots[..k2];
    assert s[..k1] == d.slots[..k1] && s[k1] == p;
    CountPrefix(s, k1, p);
    CountPrefix(d.slots, k2, p);
    SortBySorted(GetRankingData(issues).queues[p], RankKey);
  }
}
