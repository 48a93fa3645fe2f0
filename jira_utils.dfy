/**
 * Tracker helpers (utils/jira.py) that compute rather than call the
 * network: the search queries, the lookup of custom-field ids, the write
 * wrapper that keeps the attached context, and the "Non-compliant" label
 * state machine.
 */
module JiraUtils {
  import opened Common

  predicate EndsWith(s: string, suffix: string)
  {
    |suffix| <= |s| && s[|s| - |suffix|..] == suffix
  }

  predicate StartsWith(s: string, prefix: string)
  {
    |prefix| <= |s| && s[..|prefix|] == prefix
  }

  const OrderClause: string := " ORDER BY rank ASC"

  // ---------------------------------------------------------------------
  // Queries.

  /** A concatenation starts with its first part and ends with its second. */
  lemma ConcatShape(a: string, b: string)
    ensures StartsWith(a + b, a) && EndsWith(a + b, b)
  {
    assert (a + b)[..|a|] == a;
    assert (a + b)[|a + b| - |b|..] == b;
  }

  /** The filter shared by both queries: unresolved issues of one type, in rank order. */
  function OpenOfType(issueType: string): (r: string)
    ensures EndsWith(r, OrderClause)
  {
    ConcatShape(" AND resolution=Unresolved AND type=" + issueType, OrderClause);
    " AND resolution=Unresolved AND type=" + issueType + OrderClause
  }

  /** query_issues: the project's open issues of a type, narrowed by the subquery when one is given. */
  function QueryIssues(projectId: string, subquery: string, issueType: string): string
  {
    var query := ("project=" + projectId) + OpenOfType(issueType);
    if subquery != "" then (subquery + " AND ") + query else query
  }

  /** The scope whose children query_child_issues asks for: the project, narrowed by the subquery when one is given. */
  function ChildScope(projectId: string, subquery: string): string
  {
    if subquery != "" then ("project=" + projectId) + (" AND " + subquery) else "project=" + projectId
  }

  /** query_child_issues: open children of the project's (optionally narrowed) issues. */
  function QueryChildIssues(projectId: string, subquery: string, issueType: string): string
  {
    ("issueFunction in portfolioChildrenOf('" + ChildScope(projectId, subquery) + "')") + OpenOfType(issueType)
  }

  /** A suffix of a suffix is a suffix. */
  lemma EndsWithTransitive(s: string, t: string, u: string)
    requires EndsWith(s, t) && EndsWith(t, u)
    ensures EndsWith(s, u)
  {
    assert s[|s| - |u|..] == s[|s| - |t|..][|t| - |u|..];
  }

  /**
   * The subquery is put in front, joined by " AND ", only when it is
   * non-empty; otherwise the query starts with the project. It always ends
   * with the rank order.
   */
  lemma QueryIssuesShape(projectId: string, subquery: string, issueType: string)
    ensures var q := QueryIssues(projectId, subquery, issueType);
      EndsWith(q, OrderClause)
      && (subquery == "" ==> StartsWith(q, "project=" + projectId))
      && (subquery != "" ==> StartsWith(q, subquery + " AND "))
  {
    var query := ("project=" + projectId) + OpenOfType(issueType);
    ConcatShape("project=" + projectId, OpenOfType(issueType));
    EndsWithTransitive(query, OpenOfType(issueType), OrderClause);
    if subquery != "" {
      ConcatShape(subquery + " AND ", query);
      EndsWithTransitive((subquery + " AND ") + query, query, OrderClause);
    }
  }

  /**
   * The children scope is the project, followed by " AND " and the
   * subquery only when that is non-empty; the query ends with the rank
   * order.
   */
  lemma QueryChildIssuesShape(projectId: string, subquery: string, issueType: string)
    ensures EndsWith(QueryChildIssues(projectId, subquery, issueType), OrderClause)
    ensures StartsWith(ChildScope(projectId, subquery), "project=" + projectId)
    ensures subquery == "" ==> ChildScope(projectId, subquery) == "project=" + projectId
    ensures subquery != "" ==> EndsWith(ChildScope(projectId, subquery), " AND " + subquery)
  {
    var head := "issueFunction in portfolioChildrenOf('" + ChildScope(projectId, subquery) + "')";
    ConcatShape(head, OpenOfType(issueType));
    EndsWithTransitive(head + OpenOfType(issueType), OpenOfType(issueType), OrderClause);
    if subquery != "" {
      ConcatShape("project=" + projectId, " AND " + subquery);
    }
  }

  // ---------------------------------------------------------------------
  // Custom-field ids.

  /** One entry of the tracker's field list: its display name and its id. */
  datatype Field = Field(name: string, id: string)

  /** The id of the first field with that display name, if any. */
  function FirstId(fields: seq<Field>, name: string): (r: Option<string>)
    ensures r.None? <==> forall i :: 0 <= i < |fields| ==> fields[i].name != name
    ensures r.Some? ==> exists i :: (0 <= i < |fields| && fields[i].name == name && fields[i].id == r.value
                                     && forall j :: 0 <= j < i ==> fields[j].name != name)
  {
    if fields == [] then None
    else if fields[0].name == name then Some(fields[0].id)
    else
      var r := FirstId(fields[1..], name);
      if r.Some? then
        var i :| 0 <= i < |fields| - 1 && fields[1..][i].name == name && fields[1..][i].id == r.value
                 && forall j :: 0 <= j < i ==> fields[1..][j].name != name;
        assert fields[i + 1] == fields[1..][i];
        r
      else r
  }

  /** The ids get_fields_ids looks up: the key it stores each under, and the display name it looks for. */
  const Wanted: seq<(string, string)> := [
    ("Rank", "Rank"),
    ("Target Start Date", "Target start"),
    ("Target End Date", "Target end"),
    ("Due Date", "Due Date"),
    ("RICE Score", "RICE Score")]

  /** The keys of the wanted pairs. */
  function KeysOf(wanted: seq<(string, string)>): (r: set<string>)
    ensures forall i :: 0 <= i < |wanted| ==> wanted[i].0 in r
    ensures forall k :: k in r ==> exists i :: 0 <= i < |wanted| && wanted[i].0 == k
  {
    if wanted == [] then {}
    else
      var r := {wanted[0].0} + KeysOf(wanted[1..]);
      assert forall i :: 0 < i < |wanted| ==> wanted[i] == wanted[1..][i - 1];
      r
  }

  /** Looking up the wanted names in order; the error is the first display name no field has. */
  function LookUp(fields: seq<Field>, wanted: seq<(string, string)>): (r: Result<map<string, string>, string>)
    ensures r.Ok? ==> r.value.Keys == KeysOf(wanted)
  {
    if wanted == [] then Ok(map[])
    else
      var id := FirstId(fields, wanted[0].1);
      if id.None? then Err(wanted[0].1)
      else
        var rest := LookUp(fields, wanted[1..]);
        if rest.Err? then rest
        else Ok(rest.value[wanted[0].0 := id.value])
  }

  /** get_fields_ids over the tracker's field list (fetched by the caller). */
  function FieldIds(fields: seq<Field>): Result<map<string, string>, string>
  {
    LookUp(fields, Wanted)
  }

  /**
   * The lookup succeeds exactly when every wanted display name is present,
   * and then each key maps to the id of the first field with its display
   * name.
   */
  lemma {:induction false} LookUpSucceeds(fields: seq<Field>, wanted: seq<(string, string)>)
    requires forall i, j :: 0 <= i < j < |wanted| ==> wanted[i].0 != wanted[j].0
    ensures LookUp(fields, wanted).Ok? <==> forall i :: 0 <= i < |wanted| ==> FirstId(fields, wanted[i].1).Some?
    ensures LookUp(fields, wanted).Ok? ==>
      forall i :: 0 <= i < |wanted| ==> LookUp(fields, wanted).value[wanted[i].0] == FirstId(fields, wanted[i].1).value
    decreases |wanted|
  {
    if wanted != [] {
      var rest := wanted[1..];
      LookUpSucceeds(fields, rest);
      forall i | 0 < i < |wanted|
        ensures wanted[i] == rest[i - 1]
      {
      }
    }
  }

  /** On failure the error is the first display name no field has. */
  lemma {:induction false} LookUpFailsAtFirstMissing(fields: seq<Field>, wanted: seq<(string, string)>)
    ensures LookUp(fields, wanted).Err? ==>
      exists i :: (0 <= i < |wanted| && LookUp(fields, wanted).error == wanted[i].1 && FirstId(fields, wanted[i].1).None?
                   && forall j :: 0 <= j < i ==> FirstId(fields, wanted[j].1).Some?)
    decreases |wanted|
  {
    if wanted != [] && FirstId(fields, wanted[0].1).Some? && LookUp(fields, wanted[1..]).Err? {
      var rest := wanted[1..];
      LookUpFailsAtFirstMissing(fields, rest);
      var i :| 0 <= i < |rest| && LookUp(fields, rest).error == rest[i].1 && FirstId(fields, rest[i].1).None?
               && forall j :: 0 <= j < i ==> FirstId(fields, rest[j].1).Some?;
      assert wanted[i + 1] == rest[i];
      forall j | 0 <= j < i + 1
        ensures FirstId(fields, wanted[j].1).Some?
      {
        if j > 0 {
          assert wanted[j] == rest[j - 1];
        }
      }
    }
  }

  lemma WantedKeysDistinct()
    ensures forall i, j :: 0 <= i < j < |Wanted| ==> Wanted[i].0 != Wanted[j].0
  {
    forall i, j | 0 <= i < j < |Wanted|
      ensures Wanted[i].0 != Wanted[j].0
    {
      assert |Wanted[i].0| != |Wanted[j].0|;
    }
  }

  /**
   * get_fields_ids succeeds exactly when every display name of the table is
   * present; then it holds exactly the table's keys, each mapped to the id
   * of the first field with its display name. Otherwise the error is the
   * first display name, in table order, that no field has.
   */
  lemma FieldIdsFacts(fields: seq<Field>)
    ensures FieldIds(fields).Ok? <==> forall i :: 0 <= i < |Wanted| ==> FirstId(fields, Wanted[i].1).Some?
    ensures FieldIds(fields).Ok? ==>
      (forall i :: 0 <= i < |Wanted| ==> FieldIds(fields).value[Wanted[i].0] == FirstId(fields, Wanted[i].1).value)
      && (forall k :: k in FieldIds(fields).value <==> exists i :: 0 <= i < |Wanted| && Wanted[i].0 == k)
    ensures FieldIds(fields).Err? ==>
      exists i :: (0 <= i < |Wanted| && FieldIds(fields).error == Wanted[i].1 && FirstId(fields, Wanted[i].1).None?
                   && forall j :: 0 <= j < i ==> FirstId(fields, Wanted[j].1).Some?)
  {
    WantedKeysDistinct();
    LookUpSucceeds(fields, Wanted);
    LookUpFailsAtFirstMissing(fields, Wanted);
  }

  // ---------------------------------------------------------------------
  // Writes and the non-compliance label.

  /**
   * What the write helpers see of a fetched issue: its key, its labels
   * (edited in place) and the "Context" entry attached to its raw data,
   * None when absent.
   */
  class TrackedIssue {
    const key: Key
    var labels: seq<string>
    var attached: Option<IssueContext>

    constructor (key: Key, labels: seq<string>, attached: Option<IssueContext>)
      ensures this.key == key && this.labels == labels && this.attached == attached
    {
      this.key, this.labels, this.attached := key, labels, attached;
    }
  }

  /** The context preprocess attaches: the custom-field ids and the keys of the related issues. */
  datatype IssueContext = IssueContext(fieldIds: map<string, string>, parent: Option<Key>, blocks: seq<Key>, children: seq<Key>)

  /**
   * update: the write is sent (appended to the write log), the refreshed
   * issue comes back without its "Context" entry, and the saved one is put
   * back.
   */
  method Update(issue: TrackedIssue, ctx: Context, data: Write)
    modifies issue, ctx
    ensures issue.attached == old(issue.attached) && issue.labels == old(issue.labels)
    ensures ctx.writes == old(ctx.writes) + [data]
    ensures ctx.updates == old(ctx.updates) && ctx.comments == old(ctx.comments) && ctx.nonCompliant == old(ctx.nonCompliant)
  {
    var saved := issue.attached;
    ctx.writes := ctx.writes + [data];
    issue.attached := None;
    if saved.Some? {
      issue.attached := saved;
    }
  }

  const NonCompliantFlag: string := "Non-compliant"

  /** The labels after set_non_compliant_flag. */
  function FlaggedLabels(labels: seq<string>, nonCompliant: bool, dryRun: bool): seq<string>
  {
    if dryRun then labels
    else if NonCompliantFlag in labels then (if nonCompliant then labels else RemoveFirst(labels, NonCompliantFlag))
    else if nonCompliant then labels + [NonCompliantFlag]
    else labels
  }

  /** The comments after set_non_compliant_flag: an issue already flagged is not commented on again. */
  function FlaggedComments(labels: seq<string>, comments: seq<Msg>, nonCompliant: bool, dryRun: bool): seq<Msg>
  {
    if dryRun || NonCompliantFlag !in labels then comments
    else if nonCompliant then []
    else [NowCompliant]
  }

  /** Whether set_non_compliant_flag writes the labels. */
  predicate FlagWritten(labels: seq<string>, nonCompliant: bool, dryRun: bool)
  {
    !dryRun && (NonCompliantFlag in labels <==> !nonCompliant)
  }

  /** set_non_compliant_flag (printing the comments is left out). */
  method SetNonCompliantFlag(issue: TrackedIssue, ctx: Context, dryRun: bool)
    modifies issue, ctx
    ensures issue.labels == FlaggedLabels(old(issue.labels), old(ctx.nonCompliant), dryRun)
    ensures ctx.comments == FlaggedComments(old(issue.labels), old(ctx.comments), old(ctx.nonCompliant), dryRun)
    ensures ctx.writes == old(ctx.writes)
      + (if FlagWritten(old(issue.labels), old(ctx.nonCompliant), dryRun) then [SetLabels(issue.key, issue.labels)] else [])
    ensures issue.attached == old(issue.attached)
    ensures ctx.updates == old(ctx.updates) && ctx.nonCompliant == old(ctx.nonCompliant)
  {
    var hasFlag := NonCompliantFlag in issue.labels;
    if !dryRun {
      if hasFlag {
        if ctx.comments != [] {
          ctx.comments := [];
        }
        if !ctx.nonCompliant {
          issue.labels := RemoveFirst(issue.labels, NonCompliantFlag);
          Update(issue, ctx, SetLabels(issue.key, issue.labels));
          ctx.comments := ctx.comments + [NowCompliant];
        }
      } else {
        if ctx.nonCompliant {
          issue.labels := issue.labels + [NonCompliantFlag];
          Update(issue, ctx, SetLabels(issue.key, issue.labels));
        }
      }
    }
  }

  // ---------------------------------------------------------------------
  // Properties of the flag.

  /** A dry run changes neither labels nor comments, and writes nothing. */
  lemma DryRunChangesNothing(labels: seq<string>, comments: seq<Msg>, nonCompliant: bool)
    ensures FlaggedLabels(labels, nonCompliant, true) == labels
    ensures FlaggedComments(labels, comments, nonCompliant, true) == comments
    ensures !FlagWritten(labels, nonCompliant, true)
  {
  }

  /**
   * After a live run the flag is present exactly when the issue is
   * non-compliant (labels carry it at most once), and every other label is
   * untouched.
   */
  lemma FlagFollowsCompliance(labels: seq<string>, nonCompliant: bool)
    requires multiset(labels)[NonCompliantFlag] <= 1
    ensures NonCompliantFlag in FlaggedLabels(labels, nonCompliant, false) <==> nonCompliant
    ensures multiset(FlaggedLabels(labels, nonCompliant, false))[NonCompliantFlag] <= 1
    ensures forall l :: l != NonCompliantFlag ==> multiset(FlaggedLabels(labels, nonCompliant, false))[l] == multiset(labels)[l]
  {
    RemoveFirstMultiset(labels, NonCompliantFlag);
  }

  /** The labels are written exactly when a live run changes them. */
  lemma WrittenExactlyWhenChanged(labels: seq<string>, nonCompliant: bool, dryRun: bool)
    ensures FlagWritten(labels, nonCompliant, dryRun) <==> FlaggedLabels(labels, nonCompliant, dryRun) != labels
  {
    RemoveFirstMultiset(labels, NonCompliantFlag);
    if FlagWritten(labels, nonCompliant, dryRun) && NonCompliantFlag in labels {
      assert multiset(FlaggedLabels(labels, nonCompliant, dryRun)) != multiset(labels);
    }
  }

  /**
   * A flagged issue gets no fresh comments: they are dropped, and replaced
   * by the "now compliant" line when the flag is removed.
   */
  lemma FlaggedIssueIsNotCommentedAgain(labels: seq<string>, comments: seq<Msg>, nonCompliant: bool)
    requires NonCompliantFlag in labels
    ensures FlaggedComments(labels, comments, nonCompliant, false) == if nonCompliant then [] else [NowCompliant]
  {
  }

  /** Running the flag step again with the same verdict writes nothing. */
  lemma FlagSettles(labels: seq<string>, nonCompliant: bool)
    requires multiset(labels)[NonCompliantFlag] <= 1
    ensures !FlagWritten(FlaggedLabels(labels, nonCompliant, false), nonCompliant, false)
  {
    FlagFollowsCompliance(labels, nonCompliant);
  }
}
