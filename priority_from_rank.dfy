/**
 * Priority from rank (team/priority_from_rank.py): an issue's priority
 * follows its position in the ranked backlog. Four fixed blocks are tried
 * in order; each claims the issues whose position over the backlog length
 * is at most its threshold:
 *   0. Critical, 1/16;  1. Major, 1/8;  2. Normal, 1/4;  3. Minor, 1.
 * The thresholds are powers of two, so position / length <= threshold is
 * compared exactly as threshold-denominator * position <= length.
 */
module PriorityFromRank {
  import opened Common

  const Tiers: nat := 4

  /** Block.priority of block b. */
  function TierPriority(b: nat): string
    requires b < Tiers
  {
    if b == 0 then "Critical" else if b == 1 then "Major" else if b == 2 then "Normal" else "Minor"
  }

  /** Block.claims for position i of n: i / n <= 1/16, 1/8, 1/4 or 1. */
  predicate ClaimsAt(b: nat, i: nat, n: nat)
    requires b < Tiers
  {
    n > 0
    && if b == 0 then 16 * i <= n
       else if b == 1 then 8 * i <= n
       else if b == 2 then 4 * i <= n
       else i <= n
  }

  /** Block.claims: no block claims anything of an empty list; otherwise the position decides. */
  predicate Claims(b: nat, issue: Issue, issues: seq<Issue>)
    requires b < Tiers && issue in issues
  {
    ClaimsAt(b, IndexOf(issues, issue), |issues|)
  }

  /** The first block that claims position i of n. */
  function TierAt(i: nat, n: nat): (b: nat)
    requires i < n
    ensures b < Tiers && ClaimsAt(b, i, n)
    ensures forall k :: 0 <= k < b ==> !ClaimsAt(k, i, n)
  {
    if 16 * i <= n then 0 else if 8 * i <= n then 1 else if 4 * i <= n then 2 else 3
  }

  /** The block an issue lands in. */
  function Tier(issue: Issue, issues: seq<Issue>): nat
    requires issue in issues
  {
    TierAt(IndexOf(issues, issue), |issues|)
  }

  /** The issues among issues[..n] that land in block b, in input order. */
  function BlockOf(issues: seq<Issue>, b: nat, n: nat): seq<Issue>
    requires n <= |issues|
  {
    if n == 0 then []
    else BlockOf(issues, b, n - 1) + (if Tier(issues[n - 1], issues) == b then [issues[n - 1]] else [])
  }

  /** The order in which the blocks are visited: block by block, each in input order. */
  function Order(issues: seq<Issue>): seq<Issue>
  {
    var n := |issues|;
    BlockOf(issues, 0, n) + BlockOf(issues, 1, n) + BlockOf(issues, 2, n) + BlockOf(issues, 3, n)
  }

  /** The issues of the first b blocks, block by block. */
  ghost function VisitedBlocks(issues: seq<Issue>, b: nat): seq<Issue>
    requires b <= Tiers
  {
    if b == 0 then [] else VisitedBlocks(issues, b - 1) + BlockOf(issues, b - 1, |issues|)
  }

  // ---------------------------------------------------------------------
  // The four fixed blocks.

  class Blocks {
    var issues: seq<Issue>
    var blocks: seq<seq<Issue>>

    ghost predicate Valid()
      reads this
    {
      |blocks| == Tiers
    }

    /** Blocks.__init__: four empty blocks, then every issue added in input order. */
    constructor (issues: seq<Issue>)
      ensures Valid() && this.issues == issues
      ensures forall b :: 0 <= b < Tiers ==> blocks[b] == BlockOf(issues, b, |issues|)
    {
      this.issues := issues;
      blocks := [[], [], [], []];
      new;
      for k := 0 to |issues|
        invariant Valid() && this.issues == issues
        invariant forall b :: 0 <= b < Tiers ==> blocks[b] == BlockOf(issues, b, k)
      {
        AddIssue(issues[k], issues);
      }
    }

    /**
     * Blocks.add_issue: the first block that claims the issue receives it;
     * the Minor block claims every position, so the "no block claims" error
     * cannot be raised.
     */
    method AddIssue(issue: Issue, issues: seq<Issue>)
      requires Valid() && issue in issues
      modifies this
      ensures Valid() && this.issues == old(this.issues)
      ensures var t := Tier(issue, issues); blocks == old(blocks[t := blocks[t] + [issue]])
    {
      var b := 0;
      while !Claims(b, issue, issues)
        invariant b <= Tier(issue, issues)
        decreases Tier(issue, issues) - b
      {
        b := b + 1;
      }
      blocks := blocks[b := blocks[b] + [issue]];
    }

    /** Blocks.rank: the position of the issue's first occurrence in the input. */
    function Rank(issue: Issue): (r: nat)
      reads this
      requires issue in issues
      ensures r < |issues| && issues[r] == issue
      ensures forall j :: 0 <= j < r ==> issues[j] != issue
    {
      IndexOf(issues, issue)
    }

    /** Blocks.size: the length of the input. */
    function Size(): (n: nat)
      reads this
      ensures n == |issues|
    {
      |issues|
    }

    /** Blocks.get_issues: the blocks' issues, block by block. */
    method GetIssues() returns (r: seq<Issue>)
      requires Valid()
      ensures r == blocks[0] + blocks[1] + blocks[2] + blocks[3]
    {
      r := [];
      for b := 0 to Tiers
        invariant r == if b == 0 then [] else if b == 1 then blocks[0]
                       else if b == 2 then blocks[0] + blocks[1]
                       else if b == 3 then blocks[0] + blocks[1] + blocks[2]
                       else blocks[0] + blocks[1] + blocks[2] + blocks[3]
      {
        r := r + blocks[b];
      }
    }
  }

  // ---------------------------------------------------------------------
  // Setting the priority.

  /** What one call of _set_priority prints and sends to the tracker. */
  datatype Outcome = Outcome(notice: Option<Msg>, writes: seq<Write>)

  /**
   * _set_priority: nothing happens when the issue already has the priority;
   * otherwise the message cites the 1-based position, and outside a dry run
   * the priority is written and the message posted with the footer.
   */
  function PriorityUpdate(issue: Issue, priority: string, rank: nat, total: nat, footer: string, dryRun: bool): (r: Outcome)
    ensures r.notice.None? <==> issue.priority == priority
    ensures r.notice.Some? ==> r.notice.value == PriorityFromRank(issue.key, issue.priority, priority, rank + 1, total)
    ensures r.writes != [] <==> r.notice.Some? && !dryRun
  {
    if issue.priority == priority then Outcome(None, [])
    else
      var message := PriorityFromRank(issue.key, issue.priority, priority, rank + 1, total);
      Outcome(Some(message), if dryRun then [] else [SetPriority(issue.key, priority), AddComment(issue.key, message, footer)])
  }

  /** The outcome for one issue of the backlog (none for an issue outside it). */
  function OutcomeFor(x: Issue, issues: seq<Issue>, footer: string, dryRun: bool): Outcome
  {
    if x in issues then PriorityUpdate(x, TierPriority(Tier(x, issues)), IndexOf(issues, x), |issues|, footer, dryRun)
    else Outcome(None, [])
  }

  /** The messages printed for the issues of `visit`, in that order. */
  function Notices(visit: seq<Issue>, issues: seq<Issue>, footer: string, dryRun: bool): seq<Msg>
  {
    if visit == [] then []
    else
      var last := OutcomeFor(visit[|visit| - 1], issues, footer, dryRun);
      Notices(visit[..|visit| - 1], issues, footer, dryRun) + (if last.notice.Some? then [last.notice.value] else [])
  }

  /** The tracker writes for the issues of `visit`, in that order. */
  function Writes(visit: seq<Issue>, issues: seq<Issue>, footer: string, dryRun: bool): seq<Write>
  {
    if visit == [] then []
    else Writes(visit[..|visit| - 1], issues, footer, dryRun) + OutcomeFor(visit[|visit| - 1], issues, footer, dryRun).writes
  }

  /**
   * check_priority_from_rank: every block in turn, every issue of the block
   * in turn, gets the priority of its block.
   */
  method CheckPriorityFromRank(issues: seq<Issue>, footer: string, dryRun: bool)
    returns (printed: seq<Msg>, writes: seq<Write>)
    ensures printed == Notices(Order(issues), issues, footer, dryRun)
    ensures writes == Writes(Order(issues), issues, footer, dryRun)
  {
    var blocks := new Blocks(issues);
    var total := blocks.Size();
    printed, writes := [], [];
    ghost var visited: seq<Issue> := [];
    for b := 0 to Tiers
      invariant blocks.Valid() && blocks.issues == issues
      invariant forall t :: 0 <= t < Tiers ==> blocks.blocks[t] == BlockOf(issues, t, |issues|)
      invariant visited == VisitedBlocks(issues, b)
      invariant printed == Notices(visited, issues, footer, dryRun)
      invariant writes == Writes(visited, issues, footer, dryRun)
    {
      var block := blocks.blocks[b];
      BlockPriorities(issues, b);
      printed, writes := SetBlockPriority(blocks, block, TierPriority(b), total, footer, dryRun, visited, printed, writes);
      visited := visited + block;
    }
    VisitedBlocksAreOrder(issues);
  }

  /** The inner loop of check_priority_from_rank: every issue of one block gets the block's priority. */
  method SetBlockPriority(blocks: Blocks, block: seq<Issue>, priority: string, total: nat, footer: string, dryRun: bool,
                          ghost visited: seq<Issue>, printed0: seq<Msg>, writes0: seq<Write>)
    returns (printed: seq<Msg>, writes: seq<Write>)
    requires total == |blocks.issues|
    requires forall x :: x in block ==> x in blocks.issues && TierPriority(Tier(x, blocks.issues)) == priority
    requires printed0 == Notices(visited, blocks.issues, footer, dryRun)
    requires writes0 == Writes(visited, blocks.issues, footer, dryRun)
    ensures printed == Notices(visited + block, blocks.issues, footer, dryRun)
    ensures writes == Writes(visited + block, blocks.issues, footer, dryRun)
  {
    printed, writes := printed0, writes0;
    assert visited + block[..0] == visited;
    for j := 0 to |block|
      invariant printed == Notices(visited + block[..j], blocks.issues, footer, dryRun)
      invariant writes == Writes(visited + block[..j], blocks.issues, footer, dryRun)
    {
      var issue := block[j];
      var rank := blocks.Rank(issue);
      var outcome := PriorityUpdate(issue, priority, rank, total, footer, dryRun);
      assert visited + block[..j + 1] == (visited + block[..j]) + [issue];
      NoticesSnoc(visited + block[..j], issue, blocks.issues, footer, dryRun);
      if outcome.notice.Some? {
        printed := printed + [outcome.notice.value];
      }
      writes := writes + outcome.writes;
    }
    assert block[..|block|] == block;
  }

  // ---------------------------------------------------------------------
  // Properties.

  /** The Minor block claims every position of a non-empty list: some block always claims. */
  lemma EveryPositionClaimed(i: nat, n: nat)
    requires i < n
    ensures ClaimsAt(3, i, n)
    ensures TierPriority(TierAt(i, n)) in {"Critical", "Major", "Normal", "Minor"}
  {
  }

  /** The top of the backlog is Critical, and a lower position never gets a stricter tier. */
  lemma TiersAreMonotone(i: nat, j: nat, n: nat)
    requires i <= j < n
    ensures TierAt(0, n) == 0
    ensures TierAt(i, n) <= TierAt(j, n)
  {
  }

  /** A backlog of ten issues: Critical, Major, Normal, then seven Minor. */
  lemma TenIssues()
    ensures TierPriority(TierAt(0, 10)) == "Critical"
    ensures TierPriority(TierAt(1, 10)) == "Major"
    ensures TierPriority(TierAt(2, 10)) == "Normal"
    ensures forall i :: 3 <= i < 10 ==> TierPriority(TierAt(i, 10)) == "Minor"
  {
  }

  lemma {:induction false} BlockMembers(issues: seq<Issue>, b: nat, n: nat, x: Issue)
    requires n <= |issues|
    ensures x in BlockOf(issues, b, n) <==> x in issues[..n] && Tier(x, issues) == b
  {
    if n > 0 {
      BlockMembers(issues, b, n - 1, x);
      assert issues[..n] == issues[..n - 1] + [issues[n - 1]];
    }
  }

  /** No block after the tier of position n - 1 holds any of the first n positions. */
  lemma {:induction false} LaterBlocksEmpty(issues: seq<Issue>, b: nat, n: nat)
    requires Distinct(issues) && 0 < n <= |issues|
    requires b > TierAt(n - 1, |issues|)
    ensures BlockOf(issues, b, n) == []
  {
    IndexOfDistinct(issues, n - 1);
    if n > 1 {
      TiersAreMonotone(n - 2, n - 1, |issues|);
      LaterBlocksEmpty(issues, b, n - 1);
    }
  }

  /** No block after the tier of position n - 1 holds any position before it. */
  lemma EarlierBlocksEmpty(issues: seq<Issue>, b: nat, n: nat)
    requires Distinct(issues) && 0 < n <= |issues|
    requires b > TierAt(n - 1, |issues|)
    ensures BlockOf(issues, b, n - 1) == []
  {
    if n > 1 {
      TiersAreMonotone(n - 2, n - 1, |issues|);
      LaterBlocksEmpty(issues, b, n - 1);
    }
  }

  /** Position n - 1 of a backlog without repeats joins the block of its own tier. */
  lemma BlockOfStep(issues: seq<Issue>, b: nat, n: nat)
    requires Distinct(issues) && 0 < n <= |issues|
    ensures BlockOf(issues, b, n) == BlockOf(issues, b, n - 1) + (if TierAt(n - 1, |issues|) == b then [issues[n - 1]] else [])
  {
    IndexOfDistinct(issues, n - 1);
  }

  lemma AppendToTier(b0: seq<Issue>, b1: seq<Issue>, b2: seq<Issue>, b3: seq<Issue>,
                     c0: seq<Issue>, c1: seq<Issue>, c2: seq<Issue>, c3: seq<Issue>, x: Issue, t: nat)
    requires t < Tiers
    requires (t < 1 ==> b1 == []) && (t < 2 ==> b2 == []) && (t < 3 ==> b3 == [])
    requires c0 == (if t == 0 then b0 + [x] else b0) && c1 == (if t == 1 then b1 + [x] else b1)
    requires c2 == (if t == 2 then b2 + [x] else b2) && c3 == (if t == 3 then b3 + [x] else b3)
    ensures c0 + c1 + c2 + c3 == b0 + b1 + b2 + b3 + [x]
  {
  }

  /** The blocks over the first n positions, concatenated, are those positions in order. */
  lemma {:induction false} BlocksAreContiguous(issues: seq<Issue>, n: nat)
    requires Distinct(issues) && n <= |issues|
    ensures BlockOf(issues, 0, n) + BlockOf(issues, 1, n) + BlockOf(issues, 2, n) + BlockOf(issues, 3, n) == issues[..n]
  {
    if n > 0 {
      BlocksAreContiguous(issues, n - 1);
      ContiguousStep(issues, n);
    }
  }

  /** Adding the next issue to its tier keeps the four tiers, in order, equal to the prefix. */
  lemma ContiguousStep(issues: seq<Issue>, n: nat)
    requires Distinct(issues) && 0 < n <= |issues|
    requires BlockOf(issues, 0, n - 1) + BlockOf(issues, 1, n - 1) + BlockOf(issues, 2, n - 1) + BlockOf(issues, 3, n - 1) == issues[..n - 1]
    ensures BlockOf(issues, 0, n) + BlockOf(issues, 1, n) + BlockOf(issues, 2, n) + BlockOf(issues, 3, n) == issues[..n]
  {
    var x, t := issues[n - 1], TierAt(n - 1, |issues|);
    BlockOfStep(issues, 0, n);
    BlockOfStep(issues, 1, n);
    BlockOfStep(issues, 2, n);
    BlockOfStep(issues, 3, n);
    if t < 1 { EarlierBlocksEmpty(issues, 1, n); }
    if t < 2 { EarlierBlocksEmpty(issues, 2, n); }
    if t < 3 { EarlierBlocksEmpty(issues, 3, n); }
    AppendToTier(BlockOf(issues, 0, n - 1), BlockOf(issues, 1, n - 1), BlockOf(issues, 2, n - 1), BlockOf(issues, 3, n - 1),
                 BlockOf(issues, 0, n), BlockOf(issues, 1, n), BlockOf(issues, 2, n), BlockOf(issues, 3, n), x, t);
    assert issues[..n] == issues[..n - 1] + [x];
  }

  /**
   * The tiers are contiguous in input order, so visiting the blocks in turn
   * visits the backlog in its own order, and position k gets the tier of k.
   */
  lemma OrderIsInput(issues: seq<Issue>)
    requires Distinct(issues)
    ensures Order(issues) == issues
    ensures forall k :: 0 <= k < |issues| ==> Tier(issues[k], issues) == TierAt(k, |issues|)
  {
    BlocksAreContiguous(issues, |issues|);
    assert issues[..|issues|] == issues;
    forall k | 0 <= k < |issues| ensures Tier(issues[k], issues) == TierAt(k, |issues|) {
      IndexOfDistinct(issues, k);
    }
  }

  /** Visiting all four blocks visits the issues in the blocks' order. */
  lemma VisitedBlocksAreOrder(issues: seq<Issue>)
    ensures VisitedBlocks(issues, Tiers) == Order(issues)
  {
    var n := |issues|;
    assert VisitedBlocks(issues, 1) == BlockOf(issues, 0, n);
    assert VisitedBlocks(issues, 2) == BlockOf(issues, 0, n) + BlockOf(issues, 1, n);
    assert VisitedBlocks(issues, 3) == BlockOf(issues, 0, n) + BlockOf(issues, 1, n) + BlockOf(issues, 2, n);
  }

  /** Every issue of block b is in the backlog and its tier's priority is block b's. */
  lemma BlockPriorities(issues: seq<Issue>, b: nat)
    requires b < Tiers
    ensures forall x :: x in BlockOf(issues, b, |issues|) ==> x in issues && TierPriority(Tier(x, issues)) == TierPriority(b)
  {
    forall x | x in BlockOf(issues, b, |issues|)
      ensures x in issues && Tier(x, issues) == b
    {
      BlockMembers(issues, b, |issues|, x);
      assert issues[..|issues|] == issues;
    }
  }

  lemma NoticesSnoc(visit: seq<Issue>, x: Issue, issues: seq<Issue>, footer: string, dryRun: bool)
    ensures var o := OutcomeFor(x, issues, footer, dryRun);
      Notices(visit + [x], issues, footer, dryRun) == Notices(visit, issues, footer, dryRun) + (if o.notice.Some? then [o.notice.value] else [])
      && Writes(visit + [x], issues, footer, dryRun) == Writes(visit, issues, footer, dryRun) + o.writes
  {
    assert (visit + [x])[..|visit|] == visit;
  }

  /** The message of every issue of `visit` that has one is printed. */
  lemma {:induction false} NoticePrinted(visit: seq<Issue>, issues: seq<Issue>, footer: string, dryRun: bool, x: Issue)
    requires x in visit && OutcomeFor(x, issues, footer, dryRun).notice.Some?
    ensures OutcomeFor(x, issues, footer, dryRun).notice.value in Notices(visit, issues, footer, dryRun)
    decreases |visit|
  {
    var t, y := visit[..|visit| - 1], visit[|visit| - 1];
    assert visit == t + [y];
    NoticesSnoc(t, y, issues, footer, dryRun);
    if x != y {
      NoticePrinted(t, issues, footer, dryRun, x);
    }
  }

  /** Every printed message is the message of some issue of `visit`. */
  lemma {:induction false} NoticeSource(visit: seq<Issue>, issues: seq<Issue>, footer: string, dryRun: bool, m: Msg)
    returns (x: Issue)
    requires m in Notices(visit, issues, footer, dryRun)
    ensures x in visit && OutcomeFor(x, issues, footer, dryRun).notice == Some(m)
    decreases |visit|
  {
    var t, y := visit[..|visit| - 1], visit[|visit| - 1];
    assert visit == t + [y];
    NoticesSnoc(t, y, issues, footer, dryRun);
    if m in Notices(t, issues, footer, dryRun) {
      x := NoticeSource(t, issues, footer, dryRun, m);
    } else {
      x := y;
    }
  }

  /**
   * For a backlog without repeated issues: issue k is reported, at
   * position k + 1 of n, exactly when its priority differs from its tier's.
   */
  lemma ReportedExactlyWhenOff(issues: seq<Issue>, footer: string, dryRun: bool, k: nat)
    requires Distinct(issues) && k < |issues|
    ensures var x, p := issues[k], TierPriority(TierAt(k, |issues|));
      PriorityFromRank(x.key, x.priority, p, k + 1, |issues|) in Notices(Order(issues), issues, footer, dryRun)
      <==> x.priority != p
  {
    OrderIsInput(issues);
    var x, p := issues[k], TierPriority(TierAt(k, |issues|));
    var m := PriorityFromRank(x.key, x.priority, p, k + 1, |issues|);
    IndexOfDistinct(issues, k);
    if x.priority != p {
      NoticePrinted(issues, issues, footer, dryRun, x);
    }
    if m in Notices(issues, issues, footer, dryRun) {
      var y := NoticeSource(issues, issues, footer, dryRun, m);
      IndexOfDistinct(issues, IndexOf(issues, y));
    }
  }

  /** Once every issue has its tier's priority, a run prints nothing and writes nothing. */
  lemma {:induction false} SettledBacklogIsLeftAlone(visit: seq<Issue>, issues: seq<Issue>, footer: string, dryRun: bool)
    requires forall x :: x in issues ==> x.priority == TierPriority(Tier(x, issues))
    ensures Notices(visit, issues, footer, dryRun) == []
    ensures Writes(visit, issues, footer, dryRun) == []
    decreases |visit|
  {
    if visit != [] {
      SettledBacklogIsLeftAlone(visit[..|visit| - 1], issues, footer, dryRun);
    }
  }

  /** A dry run writes nothing. */
  lemma {:induction false} DryRunWritesNothing(visit: seq<Issue>, issues: seq<Issue>, footer: string)
    ensures Writes(visit, issues, footer, true) == []
    decreases |visit|
  {
    if visit != [] {
      DryRunWritesNothing(visit[..|visit| - 1], issues, footer);
    }
  }
}
