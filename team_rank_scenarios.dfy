/**
 * The two re-ranking scenarios of the team rank tests, over their fixture:
 * two orphan stories around three parented ones, all in one project, the
 * parents ranked 1, 3 and a third rank the scenarios vary, none of them in
 * progress.
 */
module TeamRankScenarios {
  import opened Common
  import opened Sorting
  import opened TeamRank
  import MoveEmitter

  const Project: string := "TESTPROJECT"

  /** A fixture issue: only key, project, parent and rank matter to the ranking. */
  function Mock(key: Key, parent: Option<Issue>, rank: int): Issue
  {
    Issue(key, Project, "Story", "New", ToDo, "Normal", rank, None, None, None, None,
          [], [], [], parent, [], [])
  }

  /** The i-th story of the fixture; parent3's rank is r. */
  function Child(i: nat, r: int): Issue
  {
    if i == 0 then Mock("child0", None, 0)
    else if i == 1 then Mock("child1", Some(Mock("parent1", None, 1)), 2)
    else if i == 2 then Mock("child2", Some(Mock("parent2", None, 3)), 4)
    else if i == 3 then Mock("child3", Some(Mock("parent3", None, r)), 6)
    else Mock("child4", None, 7)
  }

  /** The fixture's stories in input (rank) order. */
  function Fixture(r: int): seq<Issue>
  {
    [Child(0, r), Child(1, r), Child(2, r), Child(3, r), Child(4, r)]
  }

  /** The block the i-th story opens: its own for an orphan, its parent's otherwise. */
  function BlockOf(i: nat, r: int): Block
  {
    Block(Child(i, r).parent, [Child(i, r)])
  }

  /** Each story in a block of its own, in input order. */
  function Singletons(s: seq<Issue>): (r: seq<Block>)
    ensures |r| == |s| && forall i :: 0 <= i < |s| ==> r[i] == Block(s[i].parent, [s[i]])
  {
    seq(|s|, i requires 0 <= i < |s| => Block(s[i].parent, [s[i]]))
  }

  /** No two stories of s share a parent. */
  predicate ParentsDistinct(s: seq<Issue>)
  {
    forall i, j :: 0 <= i < j < |s| && s[i].parent.Some? ==> s[i].parent != s[j].parent
  }

  /** When no two stories share a parent, grouping puts every story in a block of its own. */
  lemma {:induction false} GroupedDistinctParents(s: seq<Issue>)
    requires ParentsDistinct(s)
    ensures Grouped(s) == Singletons(s)
    decreases |s|
  {
    if s != [] {
      var t, x := s[..|s| - 1], s[|s| - 1];
      assert ParentsDistinct(t);
      GroupedDistinctParents(t);
      var bs := Singletons(t);
      if x.parent.Some? {
        assert forall j :: 0 <= j < |bs| ==> bs[j].parent == s[j].parent != x.parent;
      }
      assert Singletons(s) == bs + [Block(x.parent, [x])];
    }
  }

  /** One block per parent and one per orphan, in input order. */
  lemma FixtureBlocks(r: int)
    ensures Grouped(Fixture(r)) == [BlockOf(0, r), BlockOf(1, r), BlockOf(2, r), BlockOf(3, r), BlockOf(4, r)]
  {
    var f := Fixture(r);
    assert f[1].parent.value.key == "parent1" && f[2].parent.value.key == "parent2" && f[3].parent.value.key == "parent3";
    assert ParentsDistinct(f);
    GroupedDistinctParents(f);
  }

  lemma FlattenSnoc(bs: seq<Block>, b: Block)
    ensures Flatten(bs + [b]) == Flatten(bs) + Emit(b)
  {
    assert (bs + [b])[..|bs|] == bs;
  }

  /** The listing of five blocks, block after block, parents in front. */
  lemma FlattenFive(b0: Block, b1: Block, b2: Block, b3: Block, b4: Block)
    ensures Flatten([b0, b1, b2, b3, b4]) == Emit(b0) + Emit(b1) + Emit(b2) + Emit(b3) + Emit(b4)
  {
    var s2 := [b0] + [b1];
    var s3 := s2 + [b2];
    var s4 := s3 + [b3];
    FlattenSnoc([], b0);
    assert [] + [b0] == [b0];
    FlattenSnoc([b0], b1);
    FlattenSnoc(s2, b2);
    FlattenSnoc(s3, b3);
    FlattenSnoc(s4, b4);
    assert s4 + [b4] == [b0, b1, b2, b3, b4];
  }

  /** One step of the first loop: an orphan joins the orphans' queue, a parented block its project's. */
  lemma BuildQueuesSnoc(bs: seq<Block>, b: Block)
    ensures var q := BuildQueues(bs);
      BuildQueues(bs + [b]) == if ParentProject(b).None? then q[None := q[None] + [b]]
                               else q[ParentProject(b) := InsertBy(if ParentProject(b) in q then q[ParentProject(b)] else [], b, ParentRank)]
  {
    assert (bs + [b])[..|bs|] == bs;
  }

  /** The first loop on the first two blocks: an orphan, then the project's first block. */
  lemma QueuesOfTwo(b0: Block, b1: Block)
    requires ParentProject(b0) == None && ParentProject(b1) == Some(Project)
    ensures var q := BuildQueues([b0, b1]);
      Some(Project) in q && q[None] == [b0] && q[Some(Project)] == [b1]
  {
    BuildQueuesSnoc([], b0);
    BuildQueuesSnoc([b0], b1);
    assert [b0, b1] == [b0] + [b1];
  }

  /** Each further block of the project is inserted into its queue by parent rank. */
  lemma QueuesOfFour(b0: Block, b1: Block, b2: Block, b3: Block)
    requires ParentProject(b0) == None && ParentProject(b1) == Some(Project)
    requires ParentProject(b2) == Some(Project) && ParentProject(b3) == Some(Project)
    ensures var q := BuildQueues([b0, b1, b2, b3]);
      Some(Project) in q && q[None] == [b0]
      && q[Some(Project)] == InsertBy(InsertBy([b1], b2, ParentRank), b3, ParentRank)
  {
    QueuesOfTwo(b0, b1);
    BuildQueuesSnoc([b0, b1], b2);
    assert [b0, b1, b2] == [b0, b1] + [b2];
    BuildQueuesSnoc([b0, b1, b2], b3);
    assert [b0, b1, b2, b3] == [b0, b1, b2] + [b3];
  }

  /** The first loop on five blocks whose middle three share one project: the orphans queue in order, the rest by insertion. */
  lemma QueuesOfFive(b0: Block, b1: Block, b2: Block, b3: Block, b4: Block)
    requires ParentProject(b0) == None && ParentProject(b4) == None
    requires ParentProject(b1) == Some(Project) && ParentProject(b2) == Some(Project)
    requires ParentProject(b3) == Some(Project)
    ensures var q := BuildQueues([b0, b1, b2, b3, b4]);
      Some(Project) in q && q[None] == [b0, b4]
      && q[Some(Project)] == InsertBy(InsertBy([b1], b2, ParentRank), b3, ParentRank)
  {
    QueuesOfFour(b0, b1, b2, b3);
    BuildQueuesSnoc([b0, b1, b2, b3], b4);
    assert [b0, b1, b2, b3, b4] == [b0, b1, b2, b3] + [b4];
    assert [b0] + [b4] == [b0, b4];
  }

  /** The fixture's project queue: parent3's block goes before the first strictly higher parent rank. */
  lemma FixtureInsertion(r: int)
    ensures var q := InsertBy(InsertBy([BlockOf(1, r)], BlockOf(2, r), ParentRank), BlockOf(3, r), ParentRank);
      (r < 1 ==> q == [BlockOf(3, r), BlockOf(1, r), BlockOf(2, r)])
      && (1 <= r < 3 ==> q == [BlockOf(1, r), BlockOf(3, r), BlockOf(2, r)])
      && (3 <= r ==> q == [BlockOf(1, r), BlockOf(2, r), BlockOf(3, r)])
  {
    var b1, b2, b3 := BlockOf(1, r), BlockOf(2, r), BlockOf(3, r);
    assert ParentRank(b1) == 1.0 && ParentRank(b2) == 3.0 && ParentRank(b3) == r as real;
    assert InsertionPoint([b1], b2, ParentRank) == 1;
    assert InsertBy([b1], b2, ParentRank) == [b1, b2];
    var p := if r < 1 then 0 else if r < 3 then 1 else 2;
    assert InsertionPoint([b1, b2], b3, ParentRank) == p;
  }

  /** One step of the second loop: the slot takes the front of its project's queue. */
  lemma RethreadCons(b: Block, rest: seq<Block>, q: Queues, front: Block, tail: seq<Block>)
    requires ParentProject(b) in q && q[ParentProject(b)] == [front] + tail
    ensures Rethread([b] + rest, q) == [front] + Rethread(rest, q[ParentProject(b) := tail])
  {
    assert ([b] + rest)[0] == b && ([b] + rest)[1..] == rest;
  }

  /** The second loop: each slot takes the front of its own project's queue, orphans stay put. */
  lemma RethreadFixture(b0: Block, b1: Block, b2: Block, b3: Block, b4: Block, q: Queues, x: Block, y: Block, z: Block)
    requires ParentProject(b0) == None && ParentProject(b4) == None
    requires ParentProject(b1) == Some(Project) && ParentProject(b2) == Some(Project)
    requires ParentProject(b3) == Some(Project)
    requires None in q && Some(Project) in q && q[None] == [b0, b4] && q[Some(Project)] == [x, y, z]
    ensures Rethread([b0, b1, b2, b3, b4], q) == [b0, x, y, z, b4]
  {
    var q1 := q[None := [b4]];
    var q2 := q1[Some(Project) := [y, z]];
    var q3 := q2[Some(Project) := [z]];
    var q4 := q3[Some(Project) := []];
    RethreadCons(b4, [], q4, b4, []);
    RethreadCons(b3, [b4], q3, z, []);
    RethreadCons(b2, [b3, b4], q2, y, [z]);
    RethreadCons(b1, [b2, b3, b4], q1, x, [y, z]);
    RethreadCons(b0, [b1, b2, b3, b4], q, b0, [b4]);
    assert [b0, b1, b2, b3, b4] == [b0] + [b1, b2, b3, b4];
    assert [b1, b2, b3, b4] == [b1] + [b2, b3, b4];
    assert [b2, b3, b4] == [b2] + [b3, b4];
    assert [b3, b4] == [b3] + [b4];
    assert [b4] == [b4] + [];
  }

  /** Per-project ranking of five blocks of which the middle three share a project. */
  lemma ByProjectRankFive(b0: Block, b1: Block, b2: Block, b3: Block, b4: Block, x: Block, y: Block, z: Block)
    requires ParentProject(b0) == None && ParentProject(b4) == None
    requires ParentProject(b1) == Some(Project) && ParentProject(b2) == Some(Project)
    requires ParentProject(b3) == Some(Project)
    requires InsertBy(InsertBy([b1], b2, ParentRank), b3, ParentRank) == [x, y, z]
    ensures ByProjectRank([b0, b1, b2, b3, b4]) == [b0, x, y, z, b4]
  {
    QueuesOfFive(b0, b1, b2, b3, b4);
    RethreadFixture(b0, b1, b2, b3, b4, BuildQueues([b0, b1, b2, b3, b4]), x, y, z);
  }

  /** With no parent in progress, the status step keeps the order. */
  lemma StatusOrderIdle(bs: seq<Block>)
    requires forall i :: 0 <= i < |bs| ==> NotInProgress(bs[i])
    ensures StatusOrder(bs) == bs
  {
    FilterAll(bs, NotInProgress);
    FilterNone(bs, ParentInProgress);
  }

  /** Sorting five blocks of which the middle three share a project, none of their parents in progress. */
  lemma SortedFive(b0: Block, b1: Block, b2: Block, b3: Block, b4: Block, x: Block, y: Block, z: Block)
    requires ParentProject(b0) == None && ParentProject(b4) == None
    requires ParentProject(b1) == Some(Project) && ParentProject(b2) == Some(Project)
    requires ParentProject(b3) == Some(Project)
    requires InsertBy(InsertBy([b1], b2, ParentRank), b3, ParentRank) == [x, y, z]
    requires !ParentInProgress(x) && !ParentInProgress(y) && !ParentInProgress(z)
    ensures Sorted([b0, b1, b2, b3, b4]) == [b0, x, y, z, b4]
  {
    var s := [b0, x, y, z, b4];
    ByProjectRankFive(b0, b1, b2, b3, b4, x, y, z);
    assert forall i :: 0 <= i < |s| ==> NotInProgress(s[i]);
    StatusOrderIdle(s);
  }

  /** The fixture's orphans have no project; its parents all belong to the test project and none is in progress. */
  lemma FixtureShape(r: int)
    ensures ParentProject(BlockOf(0, r)) == None && ParentProject(BlockOf(4, r)) == None
    ensures ParentProject(BlockOf(1, r)) == Some(Project) && !ParentInProgress(BlockOf(1, r))
    ensures ParentProject(BlockOf(2, r)) == Some(Project) && !ParentInProgress(BlockOf(2, r))
    ensures ParentProject(BlockOf(3, r)) == Some(Project) && !ParentInProgress(BlockOf(3, r))
  {
  }

  /** Ranked at or after parent2, parent3 keeps its slot: sorting leaves the fixture's blocks as they are. */
  lemma FixtureSortedLast(r: int)
    requires 3 <= r
    ensures Sorted(Grouped(Fixture(r))) == Grouped(Fixture(r))
  {
    var b0, b1, b2, b3, b4 := BlockOf(0, r), BlockOf(1, r), BlockOf(2, r), BlockOf(3, r), BlockOf(4, r);
    FixtureBlocks(r);
    FixtureShape(r);
    FixtureInsertion(r);
    SortedFive(b0, b1, b2, b3, b4, b1, b2, b3);
  }

  /** Ranked before parent1, parent3's block takes the project's first slot and the others shift down. */
  lemma FixtureSortedFirst(r: int)
    requires r < 1
    ensures Sorted(Grouped(Fixture(r))) == [BlockOf(0, r), BlockOf(3, r), BlockOf(1, r), BlockOf(2, r), BlockOf(4, r)]
  {
    var b0, b1, b2, b3, b4 := BlockOf(0, r), BlockOf(1, r), BlockOf(2, r), BlockOf(3, r), BlockOf(4, r);
    FixtureBlocks(r);
    FixtureShape(r);
    FixtureInsertion(r);
    SortedFive(b0, b1, b2, b3, b4, b3, b1, b2);
  }

  /** With parent3 ranked at or after parent2, sorting changes nothing and no move is made (test_rank_idempotence ranks it 5). */
  lemma RankIdempotence(r: int)
    requires 3 <= r
    ensures var g := Grouped(Fixture(r));
      Flatten(Sorted(g)) == Flatten(g) && MoveEmitter.Moves(Flatten(g), Flatten(Sorted(g))) == []
  {
    FixtureSortedLast(r);
    MoveEmitter.UnchangedRankingHasNoMoves(Flatten(Grouped(Fixture(r))));
  }

  /** A parented story is listed after its parent, which shares its project. */
  lemma EmitParented(i: nat, r: int)
    requires 1 <= i <= 3
    ensures Emit(BlockOf(i, r)) == [Child(i, r).parent.value, Child(i, r)]
  {
  }

  /** An orphan story is listed on its own. */
  lemma EmitOrphan(i: nat, r: int)
    requires i == 0 || i == 4
    ensures Emit(BlockOf(i, r)) == [Child(i, r)]
  {
  }

  lemma ConcatFive(e0: seq<Issue>, e1: seq<Issue>, e2: seq<Issue>, e3: seq<Issue>, e4: seq<Issue>,
                   c0: Issue, c1: Issue, c2: Issue, c3: Issue, c4: Issue, c5: Issue, c6: Issue, c7: Issue)
    requires e0 == [c0] && e1 == [c1, c2] && e2 == [c3, c4] && e3 == [c5, c6] && e4 == [c7]
    ensures e0 + e1 + e2 + e3 + e4 == [c0, c1, c2, c3, c4, c5, c6, c7]
  {
  }

  /** The issues the fixture is listed as when parent3 ranks first. */
  lemma SingleMoveIssues(r: int)
    requires r < 1
    ensures Flatten(Sorted(Grouped(Fixture(r))))
      == [Child(0, r), Child(3, r).parent.value, Child(3, r), Child(1, r).parent.value, Child(1, r),
          Child(2, r).parent.value, Child(2, r), Child(4, r)]
  {
    var b0, b1, b2, b3, b4 := BlockOf(0, r), BlockOf(1, r), BlockOf(2, r), BlockOf(3, r), BlockOf(4, r);
    FixtureSortedFirst(r);
    FlattenFive(b0, b3, b1, b2, b4);
    EmitOrphan(0, r);
    EmitParented(3, r);
    EmitParented(1, r);
    EmitParented(2, r);
    EmitOrphan(4, r);
    ConcatFive(Emit(b0), Emit(b3), Emit(b1), Emit(b2), Emit(b4),
               Child(0, r), Child(3, r).parent.value, Child(3, r), Child(1, r).parent.value, Child(1, r),
               Child(2, r).parent.value, Child(2, r), Child(4, r));
  }

  lemma KeysOfEight(s: seq<Issue>, c0: Issue, c1: Issue, c2: Issue, c3: Issue, c4: Issue, c5: Issue, c6: Issue, c7: Issue)
    requires s == [c0, c1, c2, c3, c4, c5, c6, c7]
    ensures MoveEmitter.Keys(s) == [c0.key, c1.key, c2.key, c3.key, c4.key, c5.key, c6.key, c7.key]
  {
  }

  /** The keys the fixture is listed as when parent3 ranks first. */
  lemma SingleMoveListing(r: int)
    requires r < 1
    ensures MoveEmitter.Keys(Flatten(Sorted(Grouped(Fixture(r)))))
      == ["child0", "parent3", "child3", "parent1", "child1", "parent2", "child2", "child4"]
  {
    SingleMoveIssues(r);
    KeysOfEight(Flatten(Sorted(Grouped(Fixture(r)))),
                Child(0, r), Child(3, r).parent.value, Child(3, r), Child(1, r).parent.value, Child(1, r),
                Child(2, r).parent.value, Child(2, r), Child(4, r));
  }

  /** The keys the fixture is listed as before sorting: each parent in front of its story. */
  lemma FixtureListing(r: int)
    ensures MoveEmitter.Keys(Flatten(Grouped(Fixture(r))))
      == ["child0", "parent1", "child1", "parent2", "child2", "parent3", "child3", "child4"]
  {
    var b0, b1, b2, b3, b4 := BlockOf(0, r), BlockOf(1, r), BlockOf(2, r), BlockOf(3, r), BlockOf(4, r);
    FixtureBlocks(r);
    FlattenFive(b0, b1, b2, b3, b4);
    EmitOrphan(0, r);
    EmitParented(1, r);
    EmitParented(2, r);
    EmitParented(3, r);
    EmitOrphan(4, r);
    ConcatFive(Emit(b0), Emit(b1), Emit(b2), Emit(b3), Emit(b4),
               Child(0, r), Child(1, r).parent.value, Child(1, r), Child(2, r).parent.value, Child(2, r),
               Child(3, r).parent.value, Child(3, r), Child(4, r));
    KeysOfEight(Flatten(Grouped(Fixture(r))),
                Child(0, r), Child(1, r).parent.value, Child(1, r), Child(2, r).parent.value, Child(2, r),
                Child(3, r).parent.value, Child(3, r), Child(4, r));
  }

  /**
   * With parent3 ranked before parent1, its block moves to the front of the
   * project's slots, right after the orphan child0 (test_rank_single_move ranks it 0).
   */
  lemma RankSingleMove(r: int)
    requires r < 1
    ensures var g := Grouped(Fixture(r));
      Flatten(Sorted(g)) != Flatten(g)
      && MoveEmitter.Keys(Flatten(Sorted(g))) == ["child0", "parent3", "child3", "parent1", "child1", "parent2", "child2", "child4"]
  {
    SingleMoveListing(r);
    FixtureListing(r);
    var g := Grouped(Fixture(r));
    assert MoveEmitter.Keys(Flatten(g))[1] != MoveEmitter.Keys(Flatten(Sorted(g)))[1];
  }
}
