/**
 * Due-date propagation for team issues (team/due_date.py): an issue takes
 * the earliest due date among the issues it blocks and its parent; the
 * first of them wins a tie. The same module holds the "first earliest"
 * choice the due-date rules share.
 */
module DueDate {
  import opened Common

  // ---------------------------------------------------------------------
  // The first element with the earliest date.

  /**
   * The choice the source's loop keeps: scanning left to right, a dated
   * element replaces the current choice only when its date is strictly
   * earlier, so the first of equally early elements stays.
   */
  function FirstEarliest<T>(s: seq<T>, date: T -> Option<Date>): (r: Option<T>)
    ensures r.Some? ==> r.value in s && date(r.value).Some?
    decreases |s|
  {
    if s == [] then None
    else
      var e, x := FirstEarliest(s[..|s| - 1], date), s[|s| - 1];
      if date(x).None? then e
      else if e.None? || date(e.value).value > date(x).value then Some(x)
      else e
  }

  /** s[i] is dated, no dated element is earlier, and every dated element before it is later. */
  ghost predicate IsFirstEarliest<T>(s: seq<T>, date: T -> Option<Date>, i: nat)
    requires i < |s|
  {
    date(s[i]).Some?
    && (forall j :: 0 <= j < |s| && date(s[j]).Some? ==> date(s[i]).value <= date(s[j]).value)
    && (forall j :: 0 <= j < i && date(s[j]).Some? ==> date(s[j]).value > date(s[i]).value)
  }

  /** The running choice is the first element holding the minimum date, and there is none only without dates. */
  lemma {:induction false} FirstEarliestIsFirstMinimum<T>(s: seq<T>, date: T -> Option<Date>)
    ensures FirstEarliest(s, date).None? <==> forall i :: 0 <= i < |s| ==> date(s[i]).None?
    ensures FirstEarliest(s, date).Some? ==>
      exists i :: 0 <= i < |s| && s[i] == FirstEarliest(s, date).value && IsFirstEarliest(s, date, i)
    decreases |s|
  {
    if s != [] {
      var t, x := s[..|s| - 1], s[|s| - 1];
      FirstEarliestIsFirstMinimum(t, date);
      var e := FirstEarliest(t, date);
      if e.None? {
        assert forall i :: 0 <= i < |t| ==> date(t[i]).None?;
        if date(x).Some? {
          assert IsFirstEarliest(s, date, |s| - 1);
        } else {
          forall i | 0 <= i < |s|
            ensures date(s[i]).None?
          {
            if i < |t| {
              assert s[i] == t[i];
            }
          }
        }
      } else {
        var i :| 0 <= i < |t| && t[i] == e.value && IsFirstEarliest(t, date, i);
        assert s[i] == t[i];
        if date(x).Some? && date(e.value).value > date(x).value {
          assert IsFirstEarliest(s, date, |s| - 1);
        } else {
          assert IsFirstEarliest(s, date, i);
        }
      }
    }
  }

  /** Elements without a date never take part in the choice. */
  lemma {:induction false} FirstEarliestIgnoresUndated<T>(s: seq<T>, date: T -> Option<Date>, dated: T -> bool)
    requires forall x :: dated(x) == date(x).Some?
    ensures FirstEarliest(Filter(s, dated), date) == FirstEarliest(s, date)
    decreases |s|
  {
    if s != [] {
      var t, x := s[..|s| - 1], s[|s| - 1];
      FirstEarliestIgnoresUndated(t, date, dated);
      var f := Filter(t, dated);
      if dated(x) {
        assert Filter(s, dated)[..|f|] == f;
      } else {
        assert Filter(s, dated) == f;
      }
    }
  }

  // ---------------------------------------------------------------------
  // The rule.

  /** The issues an issue takes its due date from: those it blocks, then its parent. */
  function Related(x: Issue): (r: seq<Issue>)
    ensures r == [] <==> x.blocks == [] && x.parent.None?
    ensures x.parent.Some? ==> r[|r| - 1] == x.parent.value
  {
    x.blocks + (if x.parent.Some? then [x.parent.value] else [])
  }

  function DueOf(x: Issue): Option<Date>
  {
    x.dueDate
  }

  /** The related issue the due date is taken from. */
  function TargetSource(x: Issue): Option<Issue>
  {
    FirstEarliest(Related(x), DueOf)
  }

  /** The due date the issue should have. */
  function Target(x: Issue): Option<Date>
  {
    var s := TargetSource(x);
    if s.Some? then s.value.dueDate else None
  }

  /** Whether the ignore expression is set and holds for the issue. */
  predicate Ignored(ignoreExpr: string, ignoreHolds: bool)
  {
    ignoreExpr != "" && ignoreHolds
  }

  /** Whether the due date is rewritten: the issue has related issues and its due date differs from the target. */
  predicate Changes(x: Issue)
  {
    Related(x) != [] && Target(x) != x.dueDate
  }

  function UpdateMessage(x: Issue): Msg
  {
    var s := TargetSource(x);
    DueDateUpdate(Target(x), if s.Some? then Some(s.value.key) else None)
  }

  /** The notice for a target end later than the target due date. */
  predicate Exceeds(x: Issue)
  {
    Related(x) != [] && x.targetEnd.Some? && Target(x).Some? && x.targetEnd.value > Target(x).value
  }

  /** The update lines check_due_date appends. */
  function Updates(x: Issue, ignoreExpr: string, ignoreHolds: bool): seq<Msg>
  {
    if Ignored(ignoreExpr, ignoreHolds) then [Ignoring(x.key, DueDateRule, ignoreExpr)]
    else
      (if Changes(x) then [UpdateMessage(x)] else [])
      + (if Exceeds(x) then [TargetExceedsDueDate] else [])
  }

  /** The comment lines it appends. */
  function Comments(x: Issue, ignoreExpr: string, ignoreHolds: bool): seq<Msg>
  {
    if !Ignored(ignoreExpr, ignoreHolds) && Changes(x) then [UpdateMessage(x)] else []
  }

  /** The writes it sends. */
  function Writes(x: Issue, dryRun: bool, ignoreExpr: string, ignoreHolds: bool): seq<Write>
  {
    if !dryRun && !Ignored(ignoreExpr, ignoreHolds) && Changes(x) then [SetDueDate(x.key, Target(x))] else []
  }

  /** check_due_date. */
  method CheckDueDate(x: Issue, ctx: Context, dryRun: bool, ignoreExpr: string, ignoreHolds: bool)
    modifies ctx
    ensures ctx.updates == old(ctx.updates) + Updates(x, ignoreExpr, ignoreHolds)
    ensures ctx.comments == old(ctx.comments) + Comments(x, ignoreExpr, ignoreHolds)
    ensures ctx.writes == old(ctx.writes) + Writes(x, dryRun, ignoreExpr, ignoreHolds)
    ensures ctx.nonCompliant == old(ctx.nonCompliant)
  {
    if ignoreExpr != "" && ignoreHolds {
      ctx.updates := ctx.updates + [Ignoring(x.key, DueDateRule, ignoreExpr)];
      return;
    }
    var related := x.blocks;
    if x.parent.Some? {
      related := related + [x.parent.value];
    }
    assert related == Related(x);
    if related == [] {
      return;
    }
    var target, source := EarliestDueDate(related);
    assert source == TargetSource(x) && target == Target(x);
    var updates, comments, writes := [], [], [];
    if target != x.dueDate {
      var message := DueDateUpdate(target, if source.Some? then Some(source.value.key) else None);
      updates, comments := [message], [message];
      if !dryRun {
        writes := [SetDueDate(x.key, target)];
      }
    }
    if x.targetEnd.Some? && target.Some? && x.targetEnd.value > target.value {
      updates := updates + [TargetExceedsDueDate];
    }
    ctx.updates, ctx.comments, ctx.writes := ctx.updates + updates, ctx.comments + comments, ctx.writes + writes;
  }

  /** The loop of check_due_date: the earliest due date among the related issues, and the issue holding it. */
  method EarliestDueDate(related: seq<Issue>) returns (target: Option<Date>, source: Option<Issue>)
    ensures source == FirstEarliest(related, DueOf)
    ensures target == if source.Some? then source.value.dueDate else None
  {
    target, source := None, None;
    for k := 0 to |related|
      invariant source == FirstEarliest(related[..k], DueOf)
      invariant target == if source.Some? then source.value.dueDate else None
    {
      assert related[..k + 1][..k] == related[..k];
      var i := related[k];
      if i.dueDate.Some? && (target.None? || target.value > i.dueDate.value) {
        target := i.dueDate;
        source := Some(i);
      }
    }
    assert related[..|related|] == related;
  }

  // ---------------------------------------------------------------------
  // Properties.

  /** An ignored issue gets one notice and nothing else. */
  lemma IgnoredIssueOnlyNoticed(x: Issue, dryRun: bool, ignoreExpr: string)
    requires ignoreExpr != ""
    ensures Updates(x, ignoreExpr, true) == [Ignoring(x.key, DueDateRule, ignoreExpr)]
    ensures Comments(x, ignoreExpr, true) == [] && Writes(x, dryRun, ignoreExpr, true) == []
  {
  }

  /** Without blocks and parent nothing happens, even to a due date already set. */
  lemma NothingRelatedNoChange(x: Issue, dryRun: bool, ignoreExpr: string, ignoreHolds: bool)
    requires x.blocks == [] && x.parent.None? && !Ignored(ignoreExpr, ignoreHolds)
    ensures Updates(x, ignoreExpr, ignoreHolds) == [] && Comments(x, ignoreExpr, ignoreHolds) == []
    ensures Writes(x, dryRun, ignoreExpr, ignoreHolds) == []
  {
  }

  /** The target is the earliest related due date, taken from the first related issue that has it. */
  lemma TargetIsEarliest(x: Issue)
    ensures Target(x).None? <==> forall i :: 0 <= i < |Related(x)| ==> Related(x)[i].dueDate.None?
    ensures Target(x).Some? ==>
      exists i :: (0 <= i < |Related(x)| && Related(x)[i] == TargetSource(x).value
                   && Related(x)[i].dueDate == Target(x) && IsFirstEarliest(Related(x), DueOf, i))
  {
    FirstEarliestIsFirstMinimum(Related(x), DueOf);
  }

  /**
   * The due date is rewritten exactly when it differs from the target, a
   * missing target clearing it; the same line goes to updates and
   * comments, and the write goes out only in a live run.
   */
  lemma UpdateExactlyWhenDifferent(x: Issue, dryRun: bool, ignoreExpr: string, ignoreHolds: bool)
    requires Related(x) != [] && !Ignored(ignoreExpr, ignoreHolds)
    ensures Comments(x, ignoreExpr, ignoreHolds) != [] <==> Target(x) != x.dueDate
    ensures Target(x) != x.dueDate ==>
      Comments(x, ignoreExpr, ignoreHolds) == [UpdateMessage(x)]
      && Updates(x, ignoreExpr, ignoreHolds)[0] == UpdateMessage(x)
      && UpdateMessage(x).newDue == Target(x)
    ensures Writes(x, dryRun, ignoreExpr, ignoreHolds) != [] <==> !dryRun && Target(x) != x.dueDate
    ensures Writes(x, dryRun, ignoreExpr, ignoreHolds) != [] ==>
      Writes(x, dryRun, ignoreExpr, ignoreHolds) == [SetDueDate(x.key, Target(x))]
  {
  }

  /** The update line names the source exactly when there is a target. */
  lemma MessageNamesSource(x: Issue)
    ensures UpdateMessage(x).dueSource.Some? <==> Target(x).Some?
  {
    FirstEarliestIsFirstMinimum(Related(x), DueOf);
  }

  /** The warning is appended exactly when the target end is later than the target due date. */
  lemma WarningExactlyWhenTargetEndLater(x: Issue, ignoreExpr: string, ignoreHolds: bool)
    requires Related(x) != [] && !Ignored(ignoreExpr, ignoreHolds)
    ensures TargetExceedsDueDate in Updates(x, ignoreExpr, ignoreHolds) <==>
      x.targetEnd.Some? && Target(x).Some? && x.targetEnd.value > Target(x).value
  {
  }

  /** Once the target is written, the rule has nothing more to do. */
  lemma ApplyingTheTargetSettles(x: Issue, dryRun: bool, ignoreExpr: string, ignoreHolds: bool)
    ensures var y := x.(dueDate := Target(x));
      Comments(y, ignoreExpr, ignoreHolds) == [] && Writes(y, dryRun, ignoreExpr, ignoreHolds) == []
  {
    var y := x.(dueDate := Target(x));
    assert Related(y) == Related(x);
  }
}
