/**
 * Parent-link check (team/parent.py): an issue without a parent is marked
 * non-compliant and gets a comment saying the link is missing, unless the
 * ignore expression holds for it.
 */
module ParentLink {
  import opened Common
  import DueDate

  function Updates(x: Issue, ignoreExpr: string, ignoreHolds: bool): seq<Msg>
  {
    if DueDate.Ignored(ignoreExpr, ignoreHolds) then [Ignoring(x.key, ParentLinkRule, ignoreExpr)] else []
  }

  /** Whether the rule flags the issue. */
  predicate Flags(x: Issue, ignoreExpr: string, ignoreHolds: bool)
  {
    !DueDate.Ignored(ignoreExpr, ignoreHolds) && x.parent.None?
  }

  function Comments(x: Issue, ignoreExpr: string, ignoreHolds: bool): seq<Msg>
  {
    if Flags(x, ignoreExpr, ignoreHolds) then [MissingParentLink] else []
  }

  /**
   * check_parent_link. `ignoreHolds` is what the ignore expression
   * evaluates to on the issue; it is consulted only for a non-empty
   * expression.
   */
  method CheckParentLink(x: Issue, ctx: Context, ignoreExpr: string, ignoreHolds: bool)
    modifies ctx
    ensures ctx.updates == old(ctx.updates) + Updates(x, ignoreExpr, ignoreHolds)
    ensures ctx.comments == old(ctx.comments) + Comments(x, ignoreExpr, ignoreHolds)
    ensures ctx.nonCompliant == (Flags(x, ignoreExpr, ignoreHolds) || old(ctx.nonCompliant))
    ensures ctx.writes == old(ctx.writes)
  {
    if ignoreExpr != "" {
      if ignoreHolds {
        ctx.updates := ctx.updates + [Ignoring(x.key, ParentLinkRule, ignoreExpr)];
        return;
      }
    }
    if x.parent.None? {
      ctx.nonCompliant := true;
      ctx.comments := ctx.comments + [MissingParentLink];
    }
  }

  // ---------------------------------------------------------------------
  // Properties.

  /** An ignored issue gets one notice; its compliance and comments are untouched. */
  lemma IgnoredIssueOnlyNoticed(x: Issue, ignoreExpr: string)
    requires ignoreExpr != ""
    ensures Updates(x, ignoreExpr, true) == [Ignoring(x.key, ParentLinkRule, ignoreExpr)]
    ensures Comments(x, ignoreExpr, true) == [] && !Flags(x, ignoreExpr, true)
  {
  }

  /** An issue with a parent is left alone, ignored or not (apart from the notice). */
  lemma ParentPresentNoChange(x: Issue, ignoreExpr: string, ignoreHolds: bool)
    requires x.parent.Some?
    ensures Comments(x, ignoreExpr, ignoreHolds) == [] && !Flags(x, ignoreExpr, ignoreHolds)
  {
  }

  /** A missing parent is flagged exactly when the issue is not ignored, with exactly one comment. */
  lemma MissingParentFlagged(x: Issue, ignoreExpr: string, ignoreHolds: bool)
    requires x.parent.None?
    ensures Flags(x, ignoreExpr, ignoreHolds) <==> ignoreExpr == "" || !ignoreHolds
    ensures Flags(x, ignoreExpr, ignoreHolds) ==> Comments(x, ignoreExpr, ignoreHolds) == [MissingParentLink]
  {
  }

  /** An empty expression is never evaluated: the outcome does not depend on it. */
  lemma EmptyExpressionIsNotEvaluated(x: Issue)
    ensures Updates(x, "", true) == Updates(x, "", false) == []
    ensures Comments(x, "", true) == Comments(x, "", false)
    ensures Flags(x, "", true) == Flags(x, "", false)
  {
  }
}
