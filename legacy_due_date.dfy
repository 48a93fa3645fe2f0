/**
 * The older due-date propagation (rules/due_date.py): the issue takes the
 * minimum due date among the issues it blocks and its parent, with one
 * update line and no comment.
 */
module LegacyDueDate {
  import opened Common
  import DueDate

  /** The minimum due date among rs, if any of them has one. */
  function Minimum(rs: seq<Issue>): (r: Option<Date>)
    ensures r.None? <==> forall i :: 0 <= i < |rs| ==> rs[i].dueDate.None?
    ensures r.Some? ==> exists i :: 0 <= i < |rs| && rs[i].dueDate == r
    ensures r.Some? ==> forall i :: 0 <= i < |rs| && rs[i].dueDate.Some? ==> r.value <= rs[i].dueDate.value
    decreases |rs|
  {
    if rs == [] then None
    else
      var m, d := Minimum(rs[..|rs| - 1]), rs[|rs| - 1].dueDate;
      assert forall i :: 0 <= i < |rs| - 1 ==> rs[..|rs| - 1][i] == rs[i];
      if d.None? then m
      else if m.None? || m.value > d.value then d
      else m
  }

  function Updates(x: Issue): seq<Msg>
  {
    var t := Minimum(DueDate.Related(x));
    if DueDate.Related(x) != [] && t != x.dueDate then [LegacyDueDateUpdate(t)] else []
  }

  function Writes(x: Issue, dryRun: bool): seq<Write>
  {
    var t := Minimum(DueDate.Related(x));
    if !dryRun && DueDate.Related(x) != [] && t != x.dueDate then [SetDueDate(x.key, t)] else []
  }

  /** check_due_date of the older rule set. */
  method CheckDueDate(x: Issue, ctx: Context, dryRun: bool)
    modifies ctx
    ensures ctx.updates == old(ctx.updates) + Updates(x)
    ensures ctx.writes == old(ctx.writes) + Writes(x, dryRun)
    ensures ctx.comments == old(ctx.comments) && ctx.nonCompliant == old(ctx.nonCompliant)
  {
    var related := x.blocks;
    if x.parent.Some? {
      related := related + [x.parent.value];
    }
    assert related == DueDate.Related(x);
    if related == [] {
      return;
    }
    var target := MinimumDueDate(related);
    if target != x.dueDate {
      ctx.updates := ctx.updates + [LegacyDueDateUpdate(target)];
      if !dryRun {
        ctx.writes := ctx.writes + [SetDueDate(x.key, target)];
      }
    }
  }

  /** The loop of the older check_due_date. */
  method MinimumDueDate(related: seq<Issue>) returns (target: Option<Date>)
    ensures target == Minimum(related)
  {
    target := None;
    for k := 0 to |related|
      invariant target == Minimum(related[..k])
    {
      assert related[..k + 1][..k] == related[..k];
      var d := related[k].dueDate;
      if d.Some? && (target.None? || target.value > d.value) {
        target := d;
      }
    }
    assert related[..|related|] == related;
  }

  /** Without blocks and parent nothing happens. */
  lemma NothingRelatedNoChange(x: Issue, dryRun: bool)
    requires x.blocks == [] && x.parent.None?
    ensures Updates(x) == [] && Writes(x, dryRun) == []
  {
  }

  /** The due date is rewritten, or cleared, exactly when it differs from the minimum; only a live run writes. */
  lemma UpdateExactlyWhenDifferent(x: Issue, dryRun: bool)
    requires DueDate.Related(x) != []
    ensures Updates(x) != [] <==> Minimum(DueDate.Related(x)) != x.dueDate
    ensures Writes(x, dryRun) != [] <==> !dryRun && Minimum(DueDate.Related(x)) != x.dueDate
    ensures Writes(x, dryRun) != [] ==> Writes(x, dryRun) == [SetDueDate(x.key, Minimum(DueDate.Related(x)))]
  {
  }

  /** The older rule and the team rule agree on the due date; the team rule also names where it came from. */
  lemma {:induction false} AgreesWithTeamRule(rs: seq<Issue>)
    ensures var e := DueDate.FirstEarliest(rs, DueDate.DueOf);
      Minimum(rs) == if e.Some? then e.value.dueDate else None
    decreases |rs|
  {
    if rs != [] {
      AgreesWithTeamRule(rs[..|rs| - 1]);
    }
  }

  /** The two rules set the same due date on every issue. */
  lemma SameTargetAsTeamRule(x: Issue)
    ensures Minimum(DueDate.Related(x)) == DueDate.Target(x)
  {
    AgreesWithTeamRule(DueDate.Related(x));
  }
}
