/**
 * Due date from fix versions (team/due_date_by_fixversion.py): the issue's
 * due date is pulled in to the release date of its earliest fix version,
 * or set to it when missing; it is never pushed later.
 */
module DueDateByFixVersion {
  import opened Common
  import opened Sorting
  import DueDate

  function ReleaseOf(v: FixVersion): Option<Date>
  {
    v.releaseDate
  }

  predicate Dated(v: FixVersion)
  {
    v.releaseDate.Some?
  }

  /** The key the source sorts by; only dated versions are sorted. */
  function ReleaseKey(v: FixVersion): real
  {
    (if v.releaseDate.Some? then v.releaseDate.value else 0) as real
  }

  /** _earliest_fixversion: the head of the dated fix versions sorted (stably) by release date. */
  function EarliestFixVersion(fvs: seq<FixVersion>): (r: Option<FixVersion>)
    ensures r.Some? ==> r.value in fvs && r.value.releaseDate.Some?
  {
    if fvs == [] then None
    else
      var d := Filter(fvs, Dated);
      if d == [] then None
      else
        SortByPermutation(d, ReleaseKey);
        assert SortBy(d, ReleaseKey)[0] in multiset(d);
        Some(SortBy(d, ReleaseKey)[0])
  }

  /**
   * Sorting and taking the head picks the same version as a left-to-right
   * scan for the first earliest release date.
   */
  lemma EarliestIsFirstEarliest(fvs: seq<FixVersion>)
    ensures EarliestFixVersion(fvs) == DueDate.FirstEarliest(fvs, ReleaseOf)
  {
    var d := Filter(fvs, Dated);
    DueDate.FirstEarliestIgnoresUndated(fvs, ReleaseOf, Dated);
    if fvs != [] && d != [] {
      assert forall j :: 0 <= j < |d| ==> d[j] in d;
      SortedHeadIsFirstEarliest(d);
    }
  }

  /** Among dated versions, the head of the sort by release date is the first earliest one. */
  lemma SortedHeadIsFirstEarliest(d: seq<FixVersion>)
    requires d != [] && forall j :: 0 <= j < |d| ==> Dated(d[j])
    ensures DueDate.FirstEarliest(d, ReleaseOf) == Some(SortBy(d, ReleaseKey)[0])
  {
    DueDate.FirstEarliestIsFirstMinimum(d, ReleaseOf);
    var m :| 0 <= m < |d| && d[m] == DueDate.FirstEarliest(d, ReleaseOf).value && DueDate.IsFirstEarliest(d, ReleaseOf, m);
    SortByHead(d, ReleaseKey, m);
  }

  /**
   * There is no earliest version exactly when no version is dated;
   * otherwise it is the first version holding the earliest release date.
   */
  lemma EarliestIsFirstMinimum(fvs: seq<FixVersion>)
    ensures EarliestFixVersion(fvs).None? <==> forall i :: 0 <= i < |fvs| ==> fvs[i].releaseDate.None?
    ensures EarliestFixVersion(fvs).Some? ==>
      exists i :: (0 <= i < |fvs| && fvs[i] == EarliestFixVersion(fvs).value && DueDate.IsFirstEarliest(fvs, ReleaseOf, i))
  {
    EarliestIsFirstEarliest(fvs);
    DueDate.FirstEarliestIsFirstMinimum(fvs, ReleaseOf);
  }

  /** The line the rule prints and comments, if the due date changes. */
  function Message(x: Issue): Option<Msg>
  {
    var v := EarliestFixVersion(x.fixVersions);
    if v.None? then None
    else
      var release := v.value.releaseDate.value;
      if x.dueDate.None? then Some(DueDateSet(release, v.value.name))
      else if x.dueDate.value > release then Some(DueDatePulledIn(x.dueDate.value, release, v.value.name))
      else None
  }

  function Updates(x: Issue, ignoreExpr: string, ignoreHolds: bool): seq<Msg>
  {
    if DueDate.Ignored(ignoreExpr, ignoreHolds) then [Ignoring(x.key, DueDateByFixVersionRule, ignoreExpr)]
    else if Message(x).Some? then [Message(x).value]
    else []
  }

  function Comments(x: Issue, ignoreExpr: string, ignoreHolds: bool): seq<Msg>
  {
    if !DueDate.Ignored(ignoreExpr, ignoreHolds) && Message(x).Some? then [Message(x).value] else []
  }

  function Writes(x: Issue, dryRun: bool, ignoreExpr: string, ignoreHolds: bool): seq<Write>
  {
    if !dryRun && !DueDate.Ignored(ignoreExpr, ignoreHolds) && Message(x).Some? then
      [SetDueDate(x.key, EarliestFixVersion(x.fixVersions).value.releaseDate)]
    else []
  }

  /** check_due_date_by_fixversion. */
  method CheckDueDateByFixVersion(x: Issue, ctx: Context, dryRun: bool, ignoreExpr: string, ignoreHolds: bool)
    modifies ctx
    ensures ctx.updates == old(ctx.updates) + Updates(x, ignoreExpr, ignoreHolds)
    ensures ctx.comments == old(ctx.comments) + Comments(x, ignoreExpr, ignoreHolds)
    ensures ctx.writes == old(ctx.writes) + Writes(x, dryRun, ignoreExpr, ignoreHolds)
    ensures ctx.nonCompliant == old(ctx.nonCompliant)
  {
    if ignoreExpr != "" && ignoreHolds {
      ctx.updates := ctx.updates + [Ignoring(x.key, DueDateByFixVersionRule, ignoreExpr)];
      return;
    }
    var fixVersion := EarliestFixVersion(x.fixVersions);
    if fixVersion.None? {
      return;
    }
    var target := fixVersion.value.releaseDate.value;
    var due := x.dueDate;
    if due.None? || due.value > target {
      var message := if due.None? then DueDateSet(target, fixVersion.value.name)
                     else DueDatePulledIn(due.value, target, fixVersion.value.name);
      ctx.updates := ctx.updates + [message];
      ctx.comments := ctx.comments + [message];
      if !dryRun {
        ctx.writes := ctx.writes + [SetDueDate(x.key, Some(target))];
      }
    }
  }

  // ---------------------------------------------------------------------
  // Properties.

  /** An ignored issue gets one notice and nothing else. */
  lemma IgnoredIssueOnlyNoticed(x: Issue, dryRun: bool, ignoreExpr: string)
    requires ignoreExpr != ""
    ensures Updates(x, ignoreExpr, true) == [Ignoring(x.key, DueDateByFixVersionRule, ignoreExpr)]
    ensures Comments(x, ignoreExpr, true) == [] && Writes(x, dryRun, ignoreExpr, true) == []
  {
  }

  /** Without a dated fix version nothing happens. */
  lemma NoDatedVersionNoChange(x: Issue, dryRun: bool, ignoreExpr: string, ignoreHolds: bool)
    requires forall i :: 0 <= i < |x.fixVersions| ==> x.fixVersions[i].releaseDate.None?
    requires !DueDate.Ignored(ignoreExpr, ignoreHolds)
    ensures Updates(x, ignoreExpr, ignoreHolds) == [] && Comments(x, ignoreExpr, ignoreHolds) == []
    ensures Writes(x, dryRun, ignoreExpr, ignoreHolds) == []
  {
    EarliestIsFirstMinimum(x.fixVersions);
  }

  /**
   * The due date is only ever set when missing or moved earlier, to the
   * earliest release date among the fix versions.
   */
  lemma NeverPushedLater(x: Issue, dryRun: bool, ignoreExpr: string, ignoreHolds: bool)
    requires Writes(x, dryRun, ignoreExpr, ignoreHolds) != []
    ensures Writes(x, dryRun, ignoreExpr, ignoreHolds)[0].SetDueDate?
    ensures var d := Writes(x, dryRun, ignoreExpr, ignoreHolds)[0].due;
      d.Some? && (x.dueDate.None? || d.value < x.dueDate.value)
      && exists i :: (0 <= i < |x.fixVersions| && x.fixVersions[i].releaseDate == d
                      && DueDate.IsFirstEarliest(x.fixVersions, ReleaseOf, i))
  {
    EarliestIsFirstMinimum(x.fixVersions);
  }

  /** "Setting" is used for a missing due date, "Pulling in" for a later one; an earlier or equal one is kept. */
  lemma MessageKinds(x: Issue)
    requires EarliestFixVersion(x.fixVersions).Some?
    ensures var release := EarliestFixVersion(x.fixVersions).value.releaseDate.value;
      (Message(x).Some? && Message(x).value.DueDateSet? <==> x.dueDate.None?)
      && (Message(x).Some? && Message(x).value.DueDatePulledIn? <==> x.dueDate.Some? && x.dueDate.value > release)
      && (Message(x).None? <==> x.dueDate.Some? && x.dueDate.value <= release)
  {
  }

  /** Once the due date is written, the rule has nothing more to do. */
  lemma ApplyingTheReleaseSettles(x: Issue, dryRun: bool, ignoreExpr: string, ignoreHolds: bool)
    requires Writes(x, dryRun, ignoreExpr, ignoreHolds) != []
    ensures var y := x.(dueDate := Writes(x, dryRun, ignoreExpr, ignoreHolds)[0].due);
      Comments(y, ignoreExpr, ignoreHolds) == [] && Writes(y, dryRun, ignoreExpr, ignoreHolds) == []
  {
  }
}
