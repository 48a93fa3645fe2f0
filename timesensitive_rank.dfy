/**
 * Time-sensitive re-ranking (team/timesensitive_rank.py): the backlog is
 * split into three fixed blocks, tried in this order for every issue:
 *   0. the due-date block claims an issue due strictly before the deadline
 *      (today plus 120 days) and lists its issues by ascending due date;
 *   1. the inert block claims what neither other block claims and keeps
 *      the input order;
 *   2. the RICE block claims the bottom third of the input (position over
 *      length above 0.66) and lists its issues by descending RICE score.
 * The old ranking is the input itself; the moves come from the shared
 * move emitter.
 */
module TimeSensitiveRank {
  import opened Common
  import opened Sorting
  import MoveEmitter

  const DueDateBlock: nat := 0
  const InertBlock: nat := 1
  const RiceBlock: nat := 2

  /** DueDateBlock._claims: a due date is set and lies strictly before the deadline. */
  predicate DueClaims(issue: Issue, deadline: Date)
  {
    issue.dueDate.Some? && issue.dueDate.value < deadline
  }

  /**
   * RICEBlock._claims: the position of the issue's first occurrence over the
   * length of the list exceeds 0.66, compared exactly as 100 * i > 66 * n.
   */
  predicate RiceClaims(issue: Issue, issues: seq<Issue>)
    requires issues == [] || issue in issues
  {
    if issues == [] then false
    else 100 * IndexOf(issues, issue) > 66 * |issues|
  }

  /** The claims test of block b. */
  predicate Claims(b: nat, issue: Issue, issues: seq<Issue>, deadline: Date)
    requires b < 3 && issue in issues
  {
    if b == DueDateBlock then DueClaims(issue, deadline)
    else if b == InertBlock then !DueClaims(issue, deadline) && !RiceClaims(issue, issues)
    else RiceClaims(issue, issues)
  }

  /** The block an issue lands in: the first of the three that claims it. */
  function Tier(issue: Issue, issues: seq<Issue>, deadline: Date): (b: nat)
    requires issue in issues
    ensures b < 3 && Claims(b, issue, issues, deadline)
    ensures forall k :: 0 <= k < b ==> !Claims(k, issue, issues, deadline)
  {
    if DueClaims(issue, deadline) then DueDateBlock
    else if !RiceClaims(issue, issues) then InertBlock
    else RiceBlock
  }

  /** The issues among issues[..n] that land in block b, in input order. */
  function BlockOf(issues: seq<Issue>, deadline: Date, b: nat, n: nat): seq<Issue>
    requires n <= |issues|
  {
    if n == 0 then []
    else BlockOf(issues, deadline, b, n - 1)
         + (if Tier(issues[n - 1], issues, deadline) == b then [issues[n - 1]] else [])
  }

  /** The RICE score, 0 when missing. */
  function RiceScore(issue: Issue): real
  {
    if issue.rice.Some? then issue.rice.value else 0.0
  }

  /** Sorting by the negated score is Python's stable `sorted(..., reverse=True)`. */
  function DescendingRice(issue: Issue): real
  {
    -RiceScore(issue)
  }

  /** yield_issues of block b. */
  function Yield(b: nat, s: seq<Issue>): seq<Issue>
  {
    if b == DueDateBlock then SortBy(s, DueDateKey)
    else if b == RiceBlock then SortBy(s, DescendingRice)
    else s
  }

  /** The new ranking: the three blocks listed one after the other. */
  function NewRanking(issues: seq<Issue>, deadline: Date): seq<Issue>
  {
    var n := |issues|;
    Yield(DueDateBlock, BlockOf(issues, deadline, DueDateBlock, n))
    + Yield(InertBlock, BlockOf(issues, deadline, InertBlock, n))
    + Yield(RiceBlock, BlockOf(issues, deadline, RiceBlock, n))
  }

  // ---------------------------------------------------------------------
  // The three fixed blocks.

  class Blocks {
    var blocks: seq<seq<Issue>>

    ghost predicate Valid()
      reads this
    {
      |blocks| == 3
    }

    /** Blocks.__init__: three empty blocks, then every issue added in order. */
    constructor (issues: seq<Issue>, deadline: Date)
      ensures Valid()
      ensures forall b :: 0 <= b < 3 ==> blocks[b] == BlockOf(issues, deadline, b, |issues|)
    {
      blocks := [[], [], []];
      new;
      for k := 0 to |issues|
        invariant Valid()
        invariant forall b :: 0 <= b < 3 ==> blocks[b] == BlockOf(issues, deadline, b, k)
      {
        AddIssue(issues[k], issues, deadline);
      }
    }

    /**
     * Blocks.add_issue: the first block whose claims test holds receives the
     * issue. Some block always claims it, so the "no block claims" error
     * cannot be raised.
     */
    method AddIssue(issue: Issue, issues: seq<Issue>, deadline: Date)
      requires Valid() && issue in issues
      modifies this
      ensures Valid()
      ensures var t := Tier(issue, issues, deadline);
        blocks == old(blocks[t := blocks[t] + [issue]])
    {
      var b := 0;
      while !Claims(b, issue, issues, deadline)
        invariant b <= Tier(issue, issues, deadline)
        decreases Tier(issue, issues, deadline) - b
      {
        b := b + 1;
      }
      blocks := blocks[b := blocks[b] + [issue]];
    }

    /** Blocks.get_issues: every block's issues as it yields them, block by block. */
    method GetIssues() returns (r: seq<Issue>)
      requires Valid()
      ensures r == Yield(DueDateBlock, blocks[0]) + Yield(InertBlock, blocks[1]) + Yield(RiceBlock, blocks[2])
    {
      r := [];
      for b := 0 to 3
        invariant r == if b == 0 then []
                       else if b == 1 then Yield(DueDateBlock, blocks[0])
                       else if b == 2 then Yield(DueDateBlock, blocks[0]) + Yield(InertBlock, blocks[1])
                       else Yield(DueDateBlock, blocks[0]) + Yield(InertBlock, blocks[1]) + Yield(RiceBlock, blocks[2])
      {
        r := r + Yield(b, blocks[b]);
      }
    }
  }

  /**
   * check_timesensitive_rank: the old ranking is the input; the block list is
   * never reordered (its sort works on the empty list it inherits from), so
   * the new ranking is the blocks listed in their fixed order.
   */
  method CheckTimeSensitiveRank(issues: seq<Issue>, deadline: Date, dryRun: bool)
    returns (ranked: seq<Write>, listed: seq<Key>)
    ensures |NewRanking(issues, deadline)| == |issues|
    ensures ranked == (if dryRun then [] else MoveEmitter.Moves(issues, NewRanking(issues, deadline)))
    ensures listed == (if dryRun then MoveEmitter.MovedKeys(issues, NewRanking(issues, deadline)) else [])
  {
    var blocks := new Blocks(issues, deadline);
    var newRanking := blocks.GetIssues();
    NewRankingPermutation(issues, deadline);
    ranked, listed := MoveEmitter.SetRank(issues, newRanking, dryRun);
  }

  // ---------------------------------------------------------------------
  // Properties.

  /** Every issue is claimed: due-dated ones by block 0, the tail by block 2, the rest by block 1. */
  lemma TierIsFirstClaim(issue: Issue, issues: seq<Issue>, deadline: Date)
    requires issue in issues
    ensures Tier(issue, issues, deadline) == DueDateBlock <==> DueClaims(issue, deadline)
    ensures Tier(issue, issues, deadline) == RiceBlock <==> !DueClaims(issue, deadline) && RiceClaims(issue, issues)
    ensures Tier(issue, issues, deadline) == InertBlock <==> !DueClaims(issue, deadline) && !RiceClaims(issue, issues)
  {
  }

  /** One more input issue adds one element to its own block and none to the others. */
  lemma BlockOfStep(issues: seq<Issue>, deadline: Date, b: nat, n: nat)
    requires 0 < n <= |issues|
    ensures var pre, m := BlockOf(issues, deadline, b, n - 1), BlockOf(issues, deadline, b, n);
      m == pre + (if Tier(issues[n - 1], issues, deadline) == b then [issues[n - 1]] else [])
      && multiset(m) == multiset(pre) + (if Tier(issues[n - 1], issues, deadline) == b then multiset{issues[n - 1]} else multiset{})
      && |pre| <= |m| && m[..|pre|] == pre
  {
  }

  /** The three blocks split the input: nothing is dropped or duplicated. */
  lemma {:induction false} BlocksPartition(issues: seq<Issue>, deadline: Date, n: nat)
    requires n <= |issues|
    ensures multiset(BlockOf(issues, deadline, DueDateBlock, n))
          + multiset(BlockOf(issues, deadline, InertBlock, n))
          + multiset(BlockOf(issues, deadline, RiceBlock, n)) == multiset(issues[..n])
  {
    if n > 0 {
      BlocksPartition(issues, deadline, n - 1);
      var x := issues[n - 1];
      assert issues[..n] == issues[..n - 1] + [x];
      BlockOfStep(issues, deadline, DueDateBlock, n);
      BlockOfStep(issues, deadline, InertBlock, n);
      BlockOfStep(issues, deadline, RiceBlock, n);
      AddToOneOfThree(multiset(BlockOf(issues, deadline, DueDateBlock, n - 1)),
                      multiset(BlockOf(issues, deadline, InertBlock, n - 1)),
                      multiset(BlockOf(issues, deadline, RiceBlock, n - 1)),
                      multiset(BlockOf(issues, deadline, DueDateBlock, n)),
                      multiset(BlockOf(issues, deadline, InertBlock, n)),
                      multiset(BlockOf(issues, deadline, RiceBlock, n)),
                      x, Tier(x, issues, deadline));
    }
  }

  /** One element added to exactly one of three multisets adds it once to their sum. */
  lemma AddToOneOfThree<T>(d: multiset<T>, i: multiset<T>, r: multiset<T>,
                           d': multiset<T>, i': multiset<T>, r': multiset<T>, x: T, t: nat)
    requires t < 3
    requires d' == d + (if t == 0 then multiset{x} else multiset{})
    requires i' == i + (if t == 1 then multiset{x} else multiset{})
    requires r' == r + (if t == 2 then multiset{x} else multiset{})
    ensures d' + i' + r' == d + i + r + multiset{x}
  {
  }

  /** An issue is in block b exactly when it is in the input and lands in b. */
  lemma {:induction false} BlockMembership(issues: seq<Issue>, deadline: Date, b: nat, n: nat, x: Issue)
    requires n <= |issues|
    ensures x in BlockOf(issues, deadline, b, n) <==> x in issues[..n] && Tier(x, issues, deadline) == b
  {
    if n > 0 {
      BlockMembership(issues, deadline, b, n - 1, x);
      BlockOfStep(issues, deadline, b, n);
      assert issues[..n] == issues[..n - 1] + [issues[n - 1]];
    }
  }

  /** The new ranking is a permutation of the input. */
  lemma NewRankingPermutation(issues: seq<Issue>, deadline: Date)
    ensures multiset(NewRanking(issues, deadline)) == multiset(issues)
    ensures |NewRanking(issues, deadline)| == |issues|
  {
    var n := |issues|;
    var d, i, r := BlockOf(issues, deadline, DueDateBlock, n), BlockOf(issues, deadline, InertBlock, n), BlockOf(issues, deadline, RiceBlock, n);
    BlocksPartition(issues, deadline, n);
    SortByPermutation(d, DueDateKey);
    SortByPermutation(r, DescendingRice);
    assert issues[..n] == issues;
    assert |multiset(NewRanking(issues, deadline))| == |multiset(issues)|;
  }

  /**
   * Every issue due before the deadline comes first, whatever its input
   * position; the due-dated part is in ascending due-date order and stable.
   */
  lemma DueDatedIssuesComeFirst(issues: seq<Issue>, deadline: Date, x: Issue)
    requires x in issues && DueClaims(x, deadline)
    ensures var head := Yield(DueDateBlock, BlockOf(issues, deadline, DueDateBlock, |issues|));
      x in head && head == NewRanking(issues, deadline)[..|head|]
      && SortedBy(head, DueDateKey)
      && SameOrderPerKey(head, BlockOf(issues, deadline, DueDateBlock, |issues|), DueDateKey)
  {
    var d := BlockOf(issues, deadline, DueDateBlock, |issues|);
    DueDatedInHead(issues, deadline, x);
    SortBySorted(d, DueDateKey);
    SortByStable(d, DueDateKey);
  }

  lemma DueDatedInHead(issues: seq<Issue>, deadline: Date, x: Issue)
    requires x in issues && DueClaims(x, deadline)
    ensures x in SortBy(BlockOf(issues, deadline, DueDateBlock, |issues|), DueDateKey)
  {
    var d := BlockOf(issues, deadline, DueDateBlock, |issues|);
    assert issues[..|issues|] == issues;
    BlockMembership(issues, deadline, DueDateBlock, |issues|, x);
    SortByPermutation(d, DueDateKey);
    assert x in multiset(SortBy(d, DueDateKey));
  }

  /** The RICE part closes the ranking, by descending score, stable among equal scores. */
  lemma RiceTailDescending(issues: seq<Issue>, deadline: Date)
    ensures var tail := Yield(RiceBlock, BlockOf(issues, deadline, RiceBlock, |issues|));
      var r := NewRanking(issues, deadline);
      |tail| <= |r| && r[|r| - |tail|..] == tail
      && (forall i, j :: 0 <= i < j < |tail| ==> RiceScore(tail[i]) >= RiceScore(tail[j]))
      && SameOrderPerKey(tail, BlockOf(issues, deadline, RiceBlock, |issues|), DescendingRice)
  {
    var t := BlockOf(issues, deadline, RiceBlock, |issues|);
    SortBySorted(t, DescendingRice);
    SortByStable(t, DescendingRice);
    var tail := SortBy(t, DescendingRice);
    forall i, j | 0 <= i < j < |tail| ensures RiceScore(tail[i]) >= RiceScore(tail[j]) {
      assert DescendingRice(tail[i]) <= DescendingRice(tail[j]);
    }
  }

  /** The inert block keeps the input order of its issues. */
  lemma InertKeepsInputOrder(issues: seq<Issue>, deadline: Date, i: nat, j: nat)
    requires i < j < |issues|
    requires Tier(issues[i], issues, deadline) == InertBlock && Tier(issues[j], issues, deadline) == InertBlock
    ensures var m := BlockOf(issues, deadline, InertBlock, |issues|);
      exists a, c :: 0 <= a < c < |m| && m[a] == issues[i] && m[c] == issues[j]
  {
    var a, c := InertOrder(issues, deadline, i, j, |issues|);
  }

  lemma {:induction false} InertOrder(issues: seq<Issue>, deadline: Date, i: nat, j: nat, n: nat) returns (a: nat, c: nat)
    requires i < j < n <= |issues|
    requires Tier(issues[i], issues, deadline) == InertBlock && Tier(issues[j], issues, deadline) == InertBlock
    ensures a < c < |BlockOf(issues, deadline, InertBlock, n)|
    ensures BlockOf(issues, deadline, InertBlock, n)[a] == issues[i]
    ensures BlockOf(issues, deadline, InertBlock, n)[c] == issues[j]
  {
    var pre := BlockOf(issues, deadline, InertBlock, n - 1);
    BlockOfStep(issues, deadline, InertBlock, n);
    if j == n - 1 {
      a := InertIndex(issues, deadline, i, n - 1);
      c := |pre|;
    } else {
      a, c := InertOrder(issues, deadline, i, j, n - 1);
    }
  }

  lemma {:induction false} InertIndex(issues: seq<Issue>, deadline: Date, i: nat, n: nat) returns (a: nat)
    requires i < n <= |issues|
    requires Tier(issues[i], issues, deadline) == InertBlock
    ensures a < |BlockOf(issues, deadline, InertBlock, n)|
    ensures BlockOf(issues, deadline, InertBlock, n)[a] == issues[i]
  {
    BlockOfStep(issues, deadline, InertBlock, n);
    if i == n - 1 {
      a := |BlockOf(issues, deadline, InertBlock, n - 1)|;
    } else {
      a := InertIndex(issues, deadline, i, n - 1);
    }
  }

  /**
   * On an input without repetitions, the RICE claim is exactly "position i
   * of n with i / n > 0.66", so it claims a suffix of the input.
   */
  lemma RiceClaimsTail(issues: seq<Issue>, i: nat, j: nat)
    requires Distinct(issues) && i <= j < |issues|
    ensures RiceClaims(issues[i], issues) <==> 100 * i > 66 * |issues|
    ensures RiceClaims(issues[i], issues) ==> RiceClaims(issues[j], issues)
  {
    IndexOfDistinct(issues, i);
    IndexOfDistinct(issues, j);
  }

  /**
   * Applying the emitted moves to the input order yields the new ranking,
   * when no key repeats.
   */
  lemma MovesRealizeTimeSensitiveRanking(issues: seq<Issue>, deadline: Date)
    requires Distinct(MoveEmitter.Keys(issues))
    ensures |NewRanking(issues, deadline)| == |issues|
    ensures MoveEmitter.ApplyMoves(MoveEmitter.Keys(issues), MoveEmitter.Moves(issues, NewRanking(issues, deadline)))
         == MoveEmitter.Keys(NewRanking(issues, deadline))
  {
    var now := NewRanking(issues, deadline);
    NewRankingPermutation(issues, deadline);
    MoveEmitter.KeysPermutation(issues, now);
    DistinctPermutation(MoveEmitter.Keys(issues), MoveEmitter.Keys(now));
    MoveEmitter.MovesRealizeNewRanking(issues, now);
  }
}
