/**
 * Target-date warnings (team/target_dates.py): an issue's target start and
 * target end are checked against today and against its parent's progress.
 * The rule only reports; it never writes a field.
 */
module TargetDates {
  import opened Common

  /** The parent counts as in progress only when there is one and its category is "In Progress". */
  predicate ParentInProgress(x: Issue)
  {
    x.parent.Some? && x.parent.value.category == InProgress
  }

  /** The statuses in which a past target start is reported. */
  const EarlyStatuses: seq<string> := ["New", "Refinement"]

  /** The line about the target start, if any. */
  function StartWarning(x: Issue, today: Date): seq<Msg>
  {
    if x.targetStart.Some? then
      (if x.targetStart.value < today && x.status in EarlyStatuses then [TargetStartObsolete] else [])
    else if ParentInProgress(x) then [TargetStartUnset]
    else []
  }

  /** The line about the target end, if any. */
  function EndWarning(x: Issue, today: Date): seq<Msg>
  {
    if x.targetEnd.Some? then
      (if x.targetEnd.value < today then [TargetEndObsolete] else [])
    else if ParentInProgress(x) then [TargetEndUnset]
    else []
  }

  function Warnings(x: Issue, today: Date): seq<Msg>
  {
    StartWarning(x, today) + EndWarning(x, today)
  }

  /** check_target_dates; `today` is the day the run happens. */
  method CheckTargetDates(x: Issue, ctx: Context, today: Date)
    modifies ctx
    ensures ctx.updates == old(ctx.updates) + Warnings(x, today)
    ensures ctx.writes == old(ctx.writes) && ctx.comments == old(ctx.comments)
    ensures ctx.nonCompliant == old(ctx.nonCompliant)
  {
    var parentIsInProgress := false;
    if x.parent.Some? {
      parentIsInProgress := x.parent.value.category == InProgress;
    }
    var before := ctx.updates;
    if x.targetStart.Some? {
      if x.targetStart.value < today && x.status in EarlyStatuses {
        ctx.updates := ctx.updates + [TargetStartObsolete];
      }
    } else if parentIsInProgress {
      ctx.updates := ctx.updates + [TargetStartUnset];
    }
    assert ctx.updates == before + StartWarning(x, today);
    if x.targetEnd.Some? {
      if x.targetEnd.value < today {
        ctx.updates := ctx.updates + [TargetEndObsolete];
      }
    } else if parentIsInProgress {
      ctx.updates := ctx.updates + [TargetEndUnset];
    }
  }

  // ---------------------------------------------------------------------
  // Properties.

  /**
   * The decision table: each of the four lines is reported exactly in its
   * case, the start line comes before the end line, and there are at most
   * two lines.
   */
  lemma DecisionTable(x: Issue, today: Date)
    ensures var w := Warnings(x, today);
      (TargetStartObsolete in w <==> x.targetStart.Some? && x.targetStart.value < today && (x.status == "New" || x.status == "Refinement"))
      && (TargetStartUnset in w <==> x.targetStart.None? && ParentInProgress(x))
      && (TargetEndObsolete in w <==> x.targetEnd.Some? && x.targetEnd.value < today)
      && (TargetEndUnset in w <==> x.targetEnd.None? && ParentInProgress(x))
      && |w| <= 2
      && (|w| == 2 ==> (w[0] == TargetStartObsolete || w[0] == TargetStartUnset)
                       && (w[1] == TargetEndObsolete || w[1] == TargetEndUnset))
  {
  }

  /** Dates on or after today are never reported, whatever the parent. */
  lemma CurrentDatesAreQuiet(x: Issue, today: Date)
    requires x.targetStart.Some? && x.targetStart.value >= today
    requires x.targetEnd.Some? && x.targetEnd.value >= today
    ensures Warnings(x, today) == []
  {
  }

  /** Missing dates are reported only under a parent in progress. */
  lemma MissingDatesNeedParentInProgress(x: Issue, today: Date)
    requires x.targetStart.None? && x.targetEnd.None?
    ensures Warnings(x, today) == if ParentInProgress(x) then [TargetStartUnset, TargetEndUnset] else []
  {
  }

  /** A later run day never removes an "obsolete" line: once past, a date stays past. */
  lemma ObsoleteStaysObsolete(x: Issue, today: Date, later: Date)
    requires today <= later
    ensures TargetStartObsolete in Warnings(x, today) ==> TargetStartObsolete in Warnings(x, later)
    ensures TargetEndObsolete in Warnings(x, today) ==> TargetEndObsolete in Warnings(x, later)
  {
    DecisionTable(x, today);
    DecisionTable(x, later);
  }
}
