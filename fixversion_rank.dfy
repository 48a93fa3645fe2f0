/**
 * Fix-version re-ranking (team/fixversion_rank.py): issues whose earliest
 * fix-version release date falls strictly before the deadline (today plus
 * 90 days) form a block ranked first, listed by due date; every other
 * issue keeps its place in one catch-all block behind it.
 */
module FixVersionRank {
  import opened Common
  import opened Sorting
  import MoveEmitter

  /** The release dates the fix versions carry, in their order. */
  function ReleaseDates(fvs: seq<FixVersion>): (r: seq<Date>)
    ensures forall i :: 0 <= i < |fvs| && fvs[i].releaseDate.Some? ==> fvs[i].releaseDate.value in r
    ensures forall d :: d in r ==> exists i :: 0 <= i < |fvs| && fvs[i].releaseDate == Some(d)
  {
    if fvs == [] then []
    else
      var rest := ReleaseDates(fvs[..|fvs| - 1]);
      var last := fvs[|fvs| - 1];
      assert forall i :: 0 <= i < |fvs| - 1 ==> fvs[..|fvs| - 1][i] == fvs[i];
      rest + (if last.releaseDate.Some? then [last.releaseDate.value] else [])
  }

  function MinDate(ds: seq<Date>): (m: Date)
    requires ds != []
    ensures m in ds && forall d :: d in ds ==> m <= d
  {
    if |ds| == 1 then ds[0]
    else
      var m := MinDate(ds[1..]);
      assert forall d :: d in ds ==> d == ds[0] || d in ds[1..];
      if ds[0] <= m then ds[0] else m
  }

  /**
   * FixVersionBlock._earliest_fixversion_date: nothing without a dated fix
   * version, otherwise the smallest release date.
   */
  function EarliestFixVersionDate(fvs: seq<FixVersion>): (r: Option<Date>)
    ensures r.None? <==> forall i :: 0 <= i < |fvs| ==> fvs[i].releaseDate.None?
    ensures r.Some? ==> exists i :: 0 <= i < |fvs| && fvs[i].releaseDate == Some(r.value)
    ensures r.Some? ==> forall i :: 0 <= i < |fvs| && fvs[i].releaseDate.Some? ==> r.value <= fvs[i].releaseDate.value
  {
    if fvs == [] then None
    else
      var dates := ReleaseDates(fvs);
      if dates == [] then None else Some(MinDate(dates))
  }

  /** FixVersionBlock._claims: the earliest release date lies strictly before the deadline. */
  predicate FixVersionClaims(issue: Issue, deadline: Date)
  {
    var d := EarliestFixVersionDate(issue.fixVersions);
    d.Some? && d.value < deadline
  }

  datatype Kind = FixVersionKind | CatchAllKind

  datatype Block = Block(kind: Kind, issues: seq<Issue>)

  /** The fix-version block claims what the fix-version test accepts; a plain block claims the rest. */
  predicate Claims(b: Block, issue: Issue, deadline: Date)
  {
    if b.kind == FixVersionKind then FixVersionClaims(issue, deadline) else !FixVersionClaims(issue, deadline)
  }

  /** The input issues the fix-version block claims, in input order. */
  function Claimed(issues: seq<Issue>, deadline: Date): seq<Issue>
  {
    if issues == [] then []
    else Claimed(issues[..|issues| - 1], deadline)
         + (if FixVersionClaims(issues[|issues| - 1], deadline) then [issues[|issues| - 1]] else [])
  }

  /** The input issues it leaves to the catch-all block, in input order. */
  function Unclaimed(issues: seq<Issue>, deadline: Date): seq<Issue>
  {
    if issues == [] then []
    else Unclaimed(issues[..|issues| - 1], deadline)
         + (if FixVersionClaims(issues[|issues| - 1], deadline) then [] else [issues[|issues| - 1]])
  }

  /**
   * The blocks after every issue is added: the fix-version block, then the
   * catch-all block once some issue was left unclaimed.
   */
  function Layout(issues: seq<Issue>, deadline: Date): seq<Block>
  {
    LayoutOf(Claimed(issues, deadline), Unclaimed(issues, deadline))
  }

  function LayoutOf(claimed: seq<Issue>, unclaimed: seq<Issue>): seq<Block>
  {
    [Block(FixVersionKind, claimed)] + (if unclaimed == [] then [] else [Block(CatchAllKind, unclaimed)])
  }

  /**
   * yield_issues with the missing guard restored: the fix-version block by
   * ascending due date (not release date), a plain block as it is.
   */
  function Yield(b: Block): seq<Issue>
  {
    if b.kind == FixVersionKind then SortBy(b.issues, DueDateKey) else b.issues
  }

  /** yield_issues as written: the fix-version block reads its first issue unguarded. */
  function YieldAsWritten(b: Block): (r: Result<seq<Issue>, string>)
    ensures r.Err? <==> b.kind == FixVersionKind && b.issues == []
    ensures r.Ok? ==> r.value == Yield(b)
  {
    if b.kind == FixVersionKind && b.issues == [] then Err("IndexError: list index out of range")
    else Ok(Yield(b))
  }

  /** The blocks listed one after the other. */
  function ListAll(bs: seq<Block>): seq<Issue>
  {
    if bs == [] then [] else ListAll(bs[..|bs| - 1]) + Yield(bs[|bs| - 1])
  }

  /** get_issues as written: the first failing block aborts the listing. */
  function ListAllAsWritten(bs: seq<Block>): (r: Result<seq<Issue>, string>)
    ensures r.Err? <==> exists i :: 0 <= i < |bs| && bs[i].kind == FixVersionKind && bs[i].issues == []
    ensures r.Ok? ==> r.value == ListAll(bs)
  {
    if bs == [] then Ok([])
    else
      match ListAllAsWritten(bs[..|bs| - 1])
      case Err(e) => Err(e)
      case Ok(front) =>
        match YieldAsWritten(bs[|bs| - 1])
        case Err(e) => Err(e)
        case Ok(tail) => Ok(front + tail)
  }

  /** The blocks of kind k, in order. */
  function OfKind(bs: seq<Block>, k: Kind): seq<Block>
  {
    if bs == [] then [] else OfKind(bs[..|bs| - 1], k) + (if bs[|bs| - 1].kind == k then [bs[|bs| - 1]] else [])
  }

  /** The new ranking the rule computes. */
  function NewRanking(issues: seq<Issue>, deadline: Date): seq<Issue>
  {
    ListAll(Layout(issues, deadline))
  }

  // ---------------------------------------------------------------------
  // The mutable block list.

  class Blocks {
    var blocks: seq<Block>

    /** The fix-version block first, then at most one plain block. */
    ghost predicate Valid()
      reads this
    {
      1 <= |blocks| <= 2 && blocks[0].kind == FixVersionKind
      && (|blocks| == 2 ==> blocks[1].kind == CatchAllKind)
    }

    /** Blocks.__init__: the fix-version block alone, then every issue added in order. */
    constructor (issues: seq<Issue>, deadline: Date)
      ensures Valid() && blocks == Layout(issues, deadline)
    {
      blocks := [Block(FixVersionKind, [])];
      new;
      for k := 0 to |issues|
        invariant Valid() && blocks == Layout(issues[..k], deadline)
      {
        LayoutStep(issues[..k], issues[k], deadline);
        assert issues[..k + 1] == issues[..k] + [issues[k]];
        AddIssue(issues[k], deadline);
      }
      assert issues[..|issues|] == issues;
    }

    /**
     * Blocks.add_issue: the first block that claims the issue receives it; when
     * none does, a new plain block is appended to hold it.
     */
    method AddIssue(issue: Issue, deadline: Date)
      requires Valid()
      modifies this
      ensures Valid()
      ensures FixVersionClaims(issue, deadline) ==>
        blocks == old(blocks[0 := Block(FixVersionKind, blocks[0].issues + [issue])])
      ensures !FixVersionClaims(issue, deadline) && |old(blocks)| == 1 ==>
        blocks == old(blocks) + [Block(CatchAllKind, [issue])]
      ensures !FixVersionClaims(issue, deadline) && |old(blocks)| == 2 ==>
        blocks == old(blocks[1 := Block(CatchAllKind, blocks[1].issues + [issue])])
    {
      var i := 0;
      while i < |blocks| && !Claims(blocks[i], issue, deadline)
        invariant i <= |blocks|
        invariant forall k :: 0 <= k < i ==> !Claims(blocks[k], issue, deadline)
      {
        i := i + 1;
      }
      if i == |blocks| {
        blocks := blocks + [Block(CatchAllKind, [issue])];
      } else {
        blocks := blocks[i := Block(blocks[i].kind, blocks[i].issues + [issue])];
      }
    }

    /** Blocks.get_issues, with the fix-version block's guard restored. */
    method GetIssues() returns (r: seq<Issue>)
      ensures r == ListAll(blocks)
    {
      r := [];
      for b := 0 to |blocks|
        invariant r == ListAll(blocks[..b])
      {
        assert blocks[..b + 1][..b] == blocks[..b];
        r := r + Yield(blocks[b]);
      }
      assert blocks[..|blocks|] == blocks;
    }

    /**
     * Blocks._prioritize_fixversion_block: the fix-version blocks first, the
     * others after them, each group in its order.
     */
    method Sort()
      modifies this
      ensures blocks == OfKind(old(blocks), FixVersionKind) + OfKind(old(blocks), CatchAllKind)
    {
      var fixversion, other := [], [];
      for k := 0 to |blocks|
        invariant fixversion == OfKind(blocks[..k], FixVersionKind)
        invariant other == OfKind(blocks[..k], CatchAllKind)
      {
        assert blocks[..k + 1][..k] == blocks[..k];
        if blocks[k].kind == FixVersionKind {
          fixversion := fixversion + [blocks[k]];
        } else {
          other := other + [blocks[k]];
        }
      }
      assert blocks[..|blocks|] == blocks;
      blocks := fixversion + other;
    }
  }

  /**
   * check_fixversion_rank (with the listing guard restored): the old ranking
   * is the input, the new one the sorted blocks listed in order.
   */
  method CheckFixVersionRank(issues: seq<Issue>, deadline: Date, dryRun: bool)
    returns (ranked: seq<Write>, listed: seq<Key>)
    ensures |NewRanking(issues, deadline)| == |issues|
    ensures ranked == (if dryRun then [] else MoveEmitter.Moves(issues, NewRanking(issues, deadline)))
    ensures listed == (if dryRun then MoveEmitter.MovedKeys(issues, NewRanking(issues, deadline)) else [])
  {
    var blocks := new Blocks(issues, deadline);
    blocks.Sort();
    SortKeepsLayout(issues, deadline);
    var newRanking := blocks.GetIssues();
    NewRankingPermutation(issues, deadline);
    ranked, listed := MoveEmitter.SetRank(issues, newRanking, dryRun);
  }

  // ---------------------------------------------------------------------
  // Properties.

  lemma ClaimedSnoc(s: seq<Issue>, x: Issue, deadline: Date)
    ensures Claimed(s + [x], deadline) == Claimed(s, deadline) + (if FixVersionClaims(x, deadline) then [x] else [])
    ensures Unclaimed(s + [x], deadline) == Unclaimed(s, deadline) + (if FixVersionClaims(x, deadline) then [] else [x])
  {
    assert (s + [x])[..|s|] == s;
  }

  /** Adding one issue to the layout of a prefix gives the layout of the longer prefix. */
  lemma LayoutStep(s: seq<Issue>, x: Issue, deadline: Date)
    ensures var was, now := Layout(s, deadline), Layout(s + [x], deadline);
      if FixVersionClaims(x, deadline) then now == was[0 := Block(FixVersionKind, was[0].issues + [x])]
      else if |was| == 1 then now == was + [Block(CatchAllKind, [x])]
      else now == was[1 := Block(CatchAllKind, was[1].issues + [x])]
  {
    ClaimedSnoc(s, x, deadline);
    var c, u := Claimed(s, deadline), Unclaimed(s, deadline);
    assert Layout(s, deadline) == LayoutOf(c, u);
    if FixVersionClaims(x, deadline) {
      assert Claimed(s + [x], deadline) == c + [x] && Unclaimed(s + [x], deadline) == u;
      assert Layout(s + [x], deadline) == LayoutOf(c + [x], u);
      LayoutOfClaim(c, u, x);
    } else {
      assert Claimed(s + [x], deadline) == c && Unclaimed(s + [x], deadline) == u + [x];
      assert Layout(s + [x], deadline) == LayoutOf(c, u + [x]);
      LayoutOfLeave(c, u, x);
    }
  }

  lemma LayoutOfClaim(c: seq<Issue>, u: seq<Issue>, x: Issue)
    ensures LayoutOf(c, u)[0].issues == c
    ensures LayoutOf(c + [x], u) == LayoutOf(c, u)[0 := Block(FixVersionKind, c + [x])]
  {
  }

  lemma LayoutOfLeave(c: seq<Issue>, u: seq<Issue>, x: Issue)
    ensures u == [] ==> LayoutOf(c, u + [x]) == LayoutOf(c, u) + [Block(CatchAllKind, [x])]
    ensures u != [] ==> LayoutOf(c, u)[1].issues == u
    ensures u != [] ==> LayoutOf(c, u + [x]) == LayoutOf(c, u)[1 := Block(CatchAllKind, u + [x])]
    ensures |LayoutOf(c, u)| == 1 <==> u == []
  {
    if u == [] {
      assert u + [x] == [x];
    }
  }

  /** The two-block lists the layouts are made of. */
  lemma Pair(b0: Block, b1: Block)
    ensures [b0][..0] == [] && [b0, b1][..1] == [b0]
    ensures ListAll([b0]) == Yield(b0) && ListAll([b0, b1]) == Yield(b0) + Yield(b1)
    ensures forall k :: OfKind([b0], k) == if b0.kind == k then [b0] else []
    ensures forall k :: OfKind([b0, b1], k) == OfKind([b0], k) + (if b1.kind == k then [b1] else [])
    ensures ListAllAsWritten([b0]) == YieldAsWritten(b0)
  {
    assert [b0][..0] == [] && [b0, b1][..1] == [b0];
    match YieldAsWritten(b0)
    case Err(e) =>
    case Ok(t) => assert [] + t == t;
  }

  /** Together the two blocks hold the input issues, nothing lost or duplicated. */
  lemma {:induction false} ClaimedPartition(issues: seq<Issue>, deadline: Date)
    ensures multiset(Claimed(issues, deadline)) + multiset(Unclaimed(issues, deadline)) == multiset(issues)
  {
    if issues != [] {
      var t, x := issues[..|issues| - 1], issues[|issues| - 1];
      ClaimedPartition(t, deadline);
      assert issues == t + [x];
      ClaimedPartitionStep(t, x, deadline);
    }
  }

  /** The partition of a prefix extends to one more issue. */
  lemma ClaimedPartitionStep(t: seq<Issue>, x: Issue, deadline: Date)
    requires multiset(Claimed(t, deadline)) + multiset(Unclaimed(t, deadline)) == multiset(t)
    ensures multiset(Claimed(t + [x], deadline)) + multiset(Unclaimed(t + [x], deadline)) == multiset(t + [x])
  {
    ClaimedSnoc(t, x, deadline);
  }

  /** An input issue goes to the fix-version block exactly when its fix version claims it. */
  lemma {:induction false} ClaimedMembers(issues: seq<Issue>, deadline: Date)
    ensures forall x :: x in Claimed(issues, deadline) <==> x in issues && FixVersionClaims(x, deadline)
    ensures forall x :: x in Unclaimed(issues, deadline) <==> x in issues && !FixVersionClaims(x, deadline)
  {
    if issues != [] {
      var t, x := issues[..|issues| - 1], issues[|issues| - 1];
      ClaimedMembers(t, deadline);
      assert issues == t + [x];
    }
  }

  /** Prioritizing the fix-version block leaves the layout as it is: that block is already first. */
  lemma SortKeepsLayout(issues: seq<Issue>, deadline: Date)
    ensures var l := Layout(issues, deadline);
      OfKind(l, FixVersionKind) + OfKind(l, CatchAllKind) == l
  {
    var c, u := Claimed(issues, deadline), Unclaimed(issues, deadline);
    var b0, b1 := Block(FixVersionKind, c), Block(CatchAllKind, u);
    Pair(b0, b1);
    if u == [] {
      assert Layout(issues, deadline) == [b0];
    } else {
      assert Layout(issues, deadline) == [b0, b1];
    }
  }

  /**
   * The new ranking lists the claimed issues by due date, stably, then
   * the others in their input order.
   */
  lemma NewRankingShape(issues: seq<Issue>, deadline: Date)
    ensures NewRanking(issues, deadline) == SortBy(Claimed(issues, deadline), DueDateKey) + Unclaimed(issues, deadline)
    ensures SortedBy(SortBy(Claimed(issues, deadline), DueDateKey), DueDateKey)
    ensures SameOrderPerKey(SortBy(Claimed(issues, deadline), DueDateKey), Claimed(issues, deadline), DueDateKey)
  {
    var c, u := Claimed(issues, deadline), Unclaimed(issues, deadline);
    Pair(Block(FixVersionKind, c), Block(CatchAllKind, u));
    if u == [] {
      assert SortBy(c, DueDateKey) + u == SortBy(c, DueDateKey);
    }
    SortBySorted(c, DueDateKey);
    SortByStable(c, DueDateKey);
  }

  /** The new ranking is a permutation of the input. */
  lemma NewRankingPermutation(issues: seq<Issue>, deadline: Date)
    ensures multiset(NewRanking(issues, deadline)) == multiset(issues)
    ensures |NewRanking(issues, deadline)| == |issues|
  {
    NewRankingShape(issues, deadline);
    ClaimedPartition(issues, deadline);
    SortByPermutation(Claimed(issues, deadline), DueDateKey);
    assert |multiset(NewRanking(issues, deadline))| == |multiset(issues)|;
  }

  /**
   * As written, listing fails exactly when no issue has a fix version due
   * before the deadline, the empty backlog included.
   */
  lemma ListingFailsWithoutFixVersionIssue(issues: seq<Issue>, deadline: Date)
    ensures ListAllAsWritten(Layout(issues, deadline)).Err? <==> Claimed(issues, deadline) == []
    ensures Claimed(issues, deadline) != [] ==> ListAllAsWritten(Layout(issues, deadline)) == Ok(NewRanking(issues, deadline))
  {
    var c, u := Claimed(issues, deadline), Unclaimed(issues, deadline);
    var b0, b1 := Block(FixVersionKind, c), Block(CatchAllKind, u);
    Pair(b0, b1);
    if u != [] {
      assert ListAllAsWritten([b0, b1]) == (if c == [] then Err("IndexError: list index out of range") else Ok(Yield(b0) + u));
    }
  }

  /** One issue without any fix version is enough to make the listing fail. */
  lemma OneUndatedIssueFails(x: Issue, deadline: Date)
    requires x.fixVersions == []
    ensures ListAllAsWritten(Layout([x], deadline)).Err?
    ensures NewRanking([x], deadline) == [x]
  {
    assert [x][..0] == [];
    ListingFailsWithoutFixVersionIssue([x], deadline);
    NewRankingShape([x], deadline);
  }

  /** Applying the emitted moves to the input order yields the new ranking, when no key repeats. */
  lemma MovesRealizeFixVersionRanking(issues: seq<Issue>, deadline: Date)
    requires Distinct(MoveEmitter.Keys(issues))
    ensures |NewRanking(issues, deadline)| == |issues|
    ensures MoveEmitter.ApplyMoves(MoveEmitter.Keys(issues), MoveEmitter.Moves(issues, NewRanking(issues, deadline)))
         == MoveEmitter.Keys(NewRanking(issues, deadline))
  {
    var now := NewRanking(issues, deadline);
    NewRankingPermutation(issues, deadline);
    MoveEmitter.KeysPermutation(issues, now);
    DistinctPermutation(MoveEmitter.Keys(issues), MoveEmitter.Keys(now));
    MoveEmitter.MovesRealizeNewRanking(issues, now);
  }
}
