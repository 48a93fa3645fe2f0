/**
 * Priority from rank by component (team/priority_from_rank_by_component.py).
 * The ranked backlog is split into one backlog per component; an issue is
 * assessed in every component it belongs to, by its position over that
 * component's length, and takes the tier of its best assessment (the same
 * 1/16, 1/8, 1/4, 1 thresholds as the plain priority-from-rank rule). An
 * issue without components gets "Undefined".
 */
module PriorityByComponent {
  import opened Common
  import opened Sorting
  import PriorityFromRank

  /** A component backlog: its name and its issues in the order they were added. */
  datatype Component = Component(name: string, issues: seq<Issue>)

  function Names(cs: seq<Component>): (r: seq<string>)
    ensures |r| == |cs| && forall i :: 0 <= i < |cs| ==> r[i] == cs[i].name
  {
    seq(|cs|, i requires 0 <= i < |cs| => cs[i].name)
  }

  /** Position of the component called `name`, or |cs| when there is none (the dictionary lookup). */
  function Find(cs: seq<Component>, name: string): (i: nat)
    ensures i <= |cs|
    ensures i < |cs| ==> cs[i].name == name
    ensures forall j :: 0 <= j < i ==> cs[j].name != name
  {
    if cs == [] then 0
    else if cs[0].name == name then 0
    else 1 + Find(cs[1..], name)
  }

  /** Component.add on the component called `name`, created first when missing. */
  function AddTo(cs: seq<Component>, name: string, x: Issue): seq<Component>
  {
    var i := Find(cs, name);
    if i < |cs| then cs[i := Component(name, cs[i].issues + [x])]
    else cs + [Component(name, [x])]
  }

  /** The inner loop of from_issues: the issue is added to each of its components in turn. */
  function AddAll(cs: seq<Component>, names: seq<string>, x: Issue): seq<Component>
  {
    if names == [] then cs
    else AddTo(AddAll(cs, names[..|names| - 1], x), names[|names| - 1], x)
  }

  /** Components.from_issues: the components in order of first appearance, each with its issues. */
  function Build(issues: seq<Issue>): seq<Component>
  {
    if issues == [] then []
    else
      var x := issues[|issues| - 1];
      AddAll(Build(issues[..|issues| - 1]), x.components, x)
  }

  /** The issues of the component called `name` (none when it does not exist). */
  function IssuesOf(cs: seq<Component>, name: string): seq<Issue>
  {
    var i := Find(cs, name);
    if i < |cs| then cs[i].issues else []
  }

  /** Every component name any issue lists, issue by issue (the reference for the names). */
  function AllNames(issues: seq<Issue>): seq<string>
  {
    if issues == [] then [] else AllNames(issues[..|issues| - 1]) + issues[|issues| - 1].components
  }

  /** x repeated k times. */
  function Repeat(x: Issue, k: nat): (r: seq<Issue>)
    ensures |r| == k && forall i :: 0 <= i < k ==> r[i] == x
  {
    if k == 0 then [] else Repeat(x, k - 1) + [x]
  }

  /**
   * The reference for a component's issues: each issue, in input order, as
   * many times as it lists the component.
   */
  function Tagged(issues: seq<Issue>, name: string): seq<Issue>
  {
    if issues == [] then []
    else
      var x := issues[|issues| - 1];
      Tagged(issues[..|issues| - 1], name) + Repeat(x, multiset(x.components)[name])
  }

  /** The issues that list the component, in input order. */
  function WithComponent(issues: seq<Issue>, name: string): (r: seq<Issue>)
    ensures forall x :: x in r <==> x in issues && name in x.components
  {
    if issues == [] then []
    else
      var x := issues[|issues| - 1];
      WithComponent(issues[..|issues| - 1], name) + (if name in x.components then [x] else [])
  }

  /** The comprehension in check_priority_from_rank_by_component: the components that hold the issue. */
  function Relevant(cs: seq<Component>, x: Issue): (r: seq<Component>)
    ensures forall c :: c in r <==> c in cs && x in c.issues
    ensures |r| <= |cs|
  {
    if cs == [] then []
    else Relevant(cs[..|cs| - 1], x) + (if x in cs[|cs| - 1].issues then [cs[|cs| - 1]] else [])
  }

  /** Components.assess: the issue's position and the length of each component. */
  function Assess(cs: seq<Component>, x: Issue): (r: seq<Assessment>)
    requires forall c :: c in cs ==> x in c.issues
    ensures |r| == |cs|
    ensures forall i :: 0 <= i < |r| ==>
      (r[i].component == cs[i].name && r[i].total == |cs[i].issues|
       && r[i].index < r[i].total && cs[i].issues[r[i].index] == x)
  {
    seq(|cs|, i requires 0 <= i < |cs| => Assessment(cs[i].name, IndexOf(cs[i].issues, x), |cs[i].issues|))
  }

  /** Assessment.percentile, index over total. */
  function Percentile(a: Assessment): real
  {
    if a.total == 0 then 0.0 else (a.index as real) / (a.total as real)
  }

  /** The assessments sorted by percentile; Python's sort is stable. */
  function Ranked(cs: seq<Component>, x: Issue): seq<Assessment>
    requires forall c :: c in cs ==> x in c.issues
  {
    SortBy(Assess(cs, x), Percentile)
  }

  /** Sorting keeps the assessments, so each still places the issue inside its component. */
  lemma RankedBounds(cs: seq<Component>, x: Issue)
    requires forall c :: c in cs ==> x in c.issues
    ensures |Ranked(cs, x)| == |cs|
    ensures forall a :: a in Ranked(cs, x) ==> a in Assess(cs, x) && a.index < a.total
  {
    SortByPermutation(Assess(cs, x), Percentile);
    forall a | a in Ranked(cs, x) ensures a in Assess(cs, x) {
      assert a in multiset(Ranked(cs, x));
    }
  }

  /**
   * Components.priority: the tier of the leading assessment, "Undefined"
   * without one. Every percentile is below 1, so the Minor threshold always
   * holds and the "How did we get here?" error cannot be raised.
   */
  function PriorityOf(cs: seq<Component>, x: Issue): string
    requires forall c :: c in cs ==> x in c.issues
  {
    RankedBounds(cs, x);
    var ranked := Ranked(cs, x);
    if ranked == [] then "Undefined"
    else PriorityFromRank.TierPriority(PriorityFromRank.TierAt(ranked[0].index, ranked[0].total))
  }

  /** Components.message: the leader, then every other assessment. */
  function MessageOf(cs: seq<Component>, x: Issue): Msg
    requires forall c :: c in cs ==> x in c.issues
  {
    var ranked := Ranked(cs, x);
    if ranked == [] then PriorityNoComponents(x.key, x.priority)
    else PriorityFromComponentRank(x.key, x.priority, PriorityOf(cs, x), ranked[0], ranked[1..])
  }

  /**
   * _set_priority: nothing when the issue already has the priority;
   * otherwise the message is printed and, outside a dry run, the priority
   * written and the message posted with the footer.
   */
  function PriorityUpdate(x: Issue, priority: string, message: Msg, footer: string, dryRun: bool): (r: PriorityFromRank.Outcome)
    ensures r.notice.None? <==> x.priority == priority
    ensures r.notice.Some? ==> r.notice.value == message
    ensures r.writes != [] <==> r.notice.Some? && !dryRun
  {
    if x.priority == priority then PriorityFromRank.Outcome(None, [])
    else PriorityFromRank.Outcome(Some(message),
           if dryRun then [] else [SetPriority(x.key, priority), AddComment(x.key, message, footer)])
  }

  /** The outcome for one issue, assessed in the components that hold it. */
  function OutcomeFor(cs: seq<Component>, x: Issue, footer: string, dryRun: bool): PriorityFromRank.Outcome
  {
    var sub := Relevant(cs, x);
    PriorityUpdate(x, PriorityOf(sub, x), MessageOf(sub, x), footer, dryRun)
  }

  function Notices(cs: seq<Component>, visit: seq<Issue>, footer: string, dryRun: bool): seq<Msg>
  {
    if visit == [] then []
    else
      var o := OutcomeFor(cs, visit[|visit| - 1], footer, dryRun);
      Notices(cs, visit[..|visit| - 1], footer, dryRun) + (if o.notice.Some? then [o.notice.value] else [])
  }

  function Writes(cs: seq<Component>, visit: seq<Issue>, footer: string, dryRun: bool): seq<Write>
  {
    if visit == [] then []
    else Writes(cs, visit[..|visit| - 1], footer, dryRun) + OutcomeFor(cs, visit[|visit| - 1], footer, dryRun).writes
  }

  // ---------------------------------------------------------------------
  // The components, filled in place.

  class Components {
    var components: seq<Component>

    /** Components.from_issues: every issue is added to each of its components in turn. */
    constructor FromIssues(issues: seq<Issue>)
      ensures components == Build(issues)
    {
      components := [];
      new;
      for k := 0 to |issues|
        invariant components == Build(issues[..k])
      {
        var issue := issues[k];
        assert issues[..k + 1][..k] == issues[..k];
        ghost var before := components;
        for j := 0 to |issue.components|
          invariant components == AddAll(before, issue.components[..j], issue)
        {
          assert issue.components[..j + 1][..j] == issue.components[..j];
          Add(issue.components[j], issue);
        }
        assert issue.components[..|issue.components|] == issue.components;
      }
      assert issues[..|issues|] == issues;
    }

    /** Components.from_subset: the given components. */
    constructor FromSubset(cs: seq<Component>)
      ensures components == cs
    {
      components := cs;
    }

    /** One step of from_issues: look the component up, create it if missing, add the issue. */
    method Add(name: string, issue: Issue)
      modifies this
      ensures components == AddTo(old(components), name, issue)
    {
      var i := 0;
      while i < |components| && components[i].name != name
        invariant i <= |components|
        invariant forall j :: 0 <= j < i ==> components[j].name != name
      {
        i := i + 1;
      }
      FindIsFirst(components, name, i);
      if i < |components| {
        components := components[i := Component(name, components[i].issues + [issue])];
      } else {
        components := components + [Component(name, [issue])];
      }
    }
  }

  /**
   * check_priority_from_rank_by_component: every issue, in input order, is
   * assessed in the components that hold it.
   */
  method CheckPriorityFromRankByComponent(issues: seq<Issue>, footer: string, dryRun: bool)
    returns (printed: seq<Msg>, writes: seq<Write>)
    ensures printed == Notices(Build(issues), issues, footer, dryRun)
    ensures writes == Writes(Build(issues), issues, footer, dryRun)
  {
    var components := new Components.FromIssues(issues);
    ghost var cs := components.components;
    printed, writes := [], [];
    for k := 0 to |issues|
      invariant components.components == cs
      invariant printed == Notices(cs, issues[..k], footer, dryRun)
      invariant writes == Writes(cs, issues[..k], footer, dryRun)
    {
      var issue := issues[k];
      assert issues[..k + 1][..k] == issues[..k];
      var relevant := new Components.FromSubset(Relevant(components.components, issue));
      var outcome := PriorityUpdate(issue, PriorityOf(relevant.components, issue), MessageOf(relevant.components, issue), footer, dryRun);
      if outcome.notice.Some? {
        printed := printed + [outcome.notice.value];
      }
      writes := writes + outcome.writes;
    }
    assert issues[..|issues|] == issues;
  }

  // ---------------------------------------------------------------------
  // Properties.

  lemma FindIsFirst(cs: seq<Component>, name: string, i: nat)
    requires i <= |cs| && (i < |cs| ==> cs[i].name == name)
    requires forall j :: 0 <= j < i ==> cs[j].name != name
    ensures Find(cs, name) == i
  {
  }

  /** Adding to a component appends to that component only; a new name is appended to the names. */
  lemma AddToEffect(cs: seq<Component>, name: string, x: Issue, m: string)
    ensures Names(AddTo(cs, name, x)) == Names(cs) + (if name in Names(cs) then [] else [name])
    ensures IssuesOf(AddTo(cs, name, x), m) == IssuesOf(cs, m) + (if m == name then [x] else [])
  {
    var i := Find(cs, name);
    var r := AddTo(cs, name, x);
    if name in Names(cs) {
      var j :| 0 <= j < |cs| && Names(cs)[j] == name;
      assert i <= j;
      assert Names(r) == Names(cs);
    } else {
      assert Names(r) == Names(cs) + [name];
    }
    var fm := Find(cs, m);
    if m == name {
      FindIsFirst(r, m, i);
    } else if fm < |cs| {
      FindIsFirst(r, m, fm);
    } else {
      FindIsFirst(r, m, |r|);
    }
  }

  /** The inner loop adds the issue once per listing of each component. */
  lemma {:induction false} AddAllIssues(cs: seq<Component>, names: seq<string>, x: Issue, m: string)
    ensures IssuesOf(AddAll(cs, names, x), m) == IssuesOf(cs, m) + Repeat(x, multiset(names)[m])
    decreases |names|
  {
    if names != [] {
      var init, last := names[..|names| - 1], names[|names| - 1];
      assert names == init + [last];
      AddAllIssues(cs, init, x, m);
      AddToEffect(AddAll(cs, init, x), last, x, m);
      assert multiset(names)[m] == multiset(init)[m] + (if m == last then 1 else 0);
      if m == last {
        assert Repeat(x, multiset(names)[m]) == Repeat(x, multiset(init)[m]) + [x];
      }
    }
  }

  /** The inner loop appends each new name once. */
  lemma {:induction false} AddAllNames(cs: seq<Component>, names: seq<string>, x: Issue, m: string)
    ensures m in Names(AddAll(cs, names, x)) <==> m in Names(cs) || m in names
    ensures Distinct(Names(cs)) ==> Distinct(Names(AddAll(cs, names, x)))
    decreases |names|
  {
    if names != [] {
      var init, last := names[..|names| - 1], names[|names| - 1];
      assert names == init + [last];
      AddAllNames(cs, init, x, m);
      var mid := AddAll(cs, init, x);
      AddToEffect(mid, last, x, m);
      if Distinct(Names(cs)) && last !in Names(mid) {
        var n := Names(mid);
        forall i | 0 <= i < |n| ensures n[i] != last {}
      }
    }
  }

  /**
   * from_issues creates one component per distinct name any issue lists,
   * and gives each the issues listing it, in input order, once per listing.
   */
  lemma {:induction false} BuildIsTagged(issues: seq<Issue>, m: string)
    ensures Distinct(Names(Build(issues)))
    ensures m in Names(Build(issues)) <==> m in AllNames(issues)
    ensures IssuesOf(Build(issues), m) == Tagged(issues, m)
    decreases |issues|
  {
    if issues == [] {
      assert Names([]) == [];
    } else {
      var t, x := issues[..|issues| - 1], issues[|issues| - 1];
      BuildIsTagged(t, m);
      AddAllIssues(Build(t), x.components, x, m);
      AddAllNames(Build(t), x.components, x, m);
    }
  }

  /** When no issue lists a component twice, each component holds exactly its issues, in input order. */
  lemma {:induction false} TaggedIsFilter(issues: seq<Issue>, m: string)
    requires forall x :: x in issues ==> multiset(x.components)[m] <= 1
    ensures Tagged(issues, m) == WithComponent(issues, m)
    decreases |issues|
  {
    if issues != [] {
      var t, x := issues[..|issues| - 1], issues[|issues| - 1];
      TaggedIsFilter(t, m);
      assert m in x.components <==> m in multiset(x.components);
    }
  }

  lemma {:induction false} TaggedMembers(issues: seq<Issue>, m: string, y: Issue)
    ensures y in Tagged(issues, m) <==> y in issues && m in y.components
    decreases |issues|
  {
    if issues != [] {
      var t, x := issues[..|issues| - 1], issues[|issues| - 1];
      TaggedMembers(t, m, y);
      assert issues == t + [x];
      assert m in x.components <==> m in multiset(x.components);
      if y == x && m in x.components {
        assert Repeat(x, multiset(x.components)[m])[0] == y;
      }
    }
  }

  /**
   * An issue of the backlog is held by some component exactly when it lists
   * one; without components it is "Undefined" with the matching message.
   */
  lemma NoComponentsIsUndefined(issues: seq<Issue>, x: Issue)
    requires x in issues
    ensures Relevant(Build(issues), x) == [] <==> x.components == []
    ensures x.components == [] ==>
      PriorityOf(Relevant(Build(issues), x), x) == "Undefined"
      && MessageOf(Relevant(Build(issues), x), x) == PriorityNoComponents(x.key, x.priority)
  {
    var cs := Build(issues);
    if x.components != [] {
      var m := x.components[0];
      BuildIsTagged(issues, m);
      TaggedMembers(issues, m, x);
      AllNamesMembers(issues, x, m);
      var i := Find(cs, m);
      assert cs[i] in Relevant(cs, x);
    } else if Relevant(cs, x) != [] {
      var c := Relevant(cs, x)[0];
      assert c in cs;
      var i :| 0 <= i < |cs| && cs[i] == c;
      BuildIsTagged(issues, c.name);
      FindFirstOfDistinct(cs, i);
      TaggedMembers(issues, c.name, x);
    }
    if x.components == [] {
      RankedBounds(Relevant(cs, x), x);
    }
  }

  lemma {:induction false} AllNamesMembers(issues: seq<Issue>, x: Issue, m: string)
    requires x in issues && m in x.components
    ensures m in AllNames(issues)
    decreases |issues|
  {
    var t := issues[..|issues| - 1];
    assert issues == t + [issues[|issues| - 1]];
    if x in t {
      AllNamesMembers(t, x, m);
    }
  }

  lemma FindFirstOfDistinct(cs: seq<Component>, i: nat)
    requires Distinct(Names(cs)) && i < |cs|
    ensures Find(cs, cs[i].name) == i
  {
    var f := Find(cs, cs[i].name);
    assert f < |cs| && Names(cs)[f] == Names(cs)[i];
  }

  lemma ScaleBothSides(p: real, q: real, k: real)
    requires k > 0.0
    ensures p <= q <==> p * k <= q * k
  {
  }

  /** percentile <= 1/d is the integer test d * index <= total. */
  lemma PercentileAtMost(i: nat, n: nat, d: nat)
    requires 0 < n && 0 < d
    ensures (i as real) / (n as real) <= 1.0 / (d as real) <==> d * i <= n
  {
    var p, q := (i as real) / (n as real), 1.0 / (d as real);
    var k := (n as real) * (d as real);
    ScaleBothSides(p, q, k);
    assert p * k == (i as real) * (d as real);
    assert q * k == n as real;
  }

  /** A smaller percentile never gets a lower tier. */
  lemma TierFollowsPercentile(a: Assessment, b: Assessment)
    requires a.index < a.total && b.index < b.total
    requires Percentile(a) <= Percentile(b)
    ensures PriorityFromRank.TierAt(a.index, a.total) <= PriorityFromRank.TierAt(b.index, b.total)
  {
    PercentileAtMost(a.index, a.total, 16);
    PercentileAtMost(b.index, b.total, 16);
    PercentileAtMost(a.index, a.total, 8);
    PercentileAtMost(b.index, b.total, 8);
    PercentileAtMost(a.index, a.total, 4);
    PercentileAtMost(b.index, b.total, 4);
  }

  /**
   * The priority is the best tier over all the components that hold the
   * issue: the leader's tier, which no other assessment beats.
   */
  lemma PriorityIsBestTier(cs: seq<Component>, x: Issue)
    requires forall c :: c in cs ==> x in c.issues
    requires cs != []
    ensures |Ranked(cs, x)| == |cs|
    ensures var leader := Ranked(cs, x)[0];
      leader in Assess(cs, x) && leader.index < leader.total
      && PriorityOf(cs, x) == PriorityFromRank.TierPriority(PriorityFromRank.TierAt(leader.index, leader.total))
      && forall a :: a in Assess(cs, x) ==>
           (Percentile(leader) <= Percentile(a)
            && PriorityFromRank.TierAt(leader.index, leader.total) <= PriorityFromRank.TierAt(a.index, a.total))
  {
    RankedBounds(cs, x);
    var s, r := Assess(cs, x), Ranked(cs, x);
    var leader := r[0];
    SortBySorted(s, Percentile);
    SortByPermutation(s, Percentile);
    forall a | a in s
      ensures Percentile(leader) <= Percentile(a)
      ensures PriorityFromRank.TierAt(leader.index, leader.total) <= PriorityFromRank.TierAt(a.index, a.total)
    {
      assert a in multiset(r);
      var j :| 0 <= j < |r| && r[j] == a;
      if j > 0 {
        assert Percentile(r[0]) <= Percentile(r[j]);
      }
      TierFollowsPercentile(leader, a);
    }
  }

  /**
   * Ties go to the first component: the leader is the assessment of the
   * first component, in order of first appearance, with the smallest
   * percentile.
   */
  lemma LeaderIsFirstBest(cs: seq<Component>, x: Issue, m: nat)
    requires forall c :: c in cs ==> x in c.issues
    requires m < |cs|
    requires forall j :: 0 <= j < |cs| ==> Percentile(Assess(cs, x)[m]) <= Percentile(Assess(cs, x)[j])
    requires forall j :: 0 <= j < m ==> Percentile(Assess(cs, x)[j]) != Percentile(Assess(cs, x)[m])
    ensures |Ranked(cs, x)| == |cs| && Ranked(cs, x)[0] == Assess(cs, x)[m]
  {
    RankedBounds(cs, x);
    SortByHead(Assess(cs, x), Percentile, m);
  }

  lemma NoticesSnoc(cs: seq<Component>, visit: seq<Issue>, x: Issue, footer: string, dryRun: bool)
    ensures var o := OutcomeFor(cs, x, footer, dryRun);
      Notices(cs, visit + [x], footer, dryRun) == Notices(cs, visit, footer, dryRun) + (if o.notice.Some? then [o.notice.value] else [])
      && Writes(cs, visit + [x], footer, dryRun) == Writes(cs, visit, footer, dryRun) + o.writes
  {
    assert (visit + [x])[..|visit|] == visit;
  }

  /** Issues already at their computed priority cause no message and no write. */
  lemma {:induction false} SettledIssuesAreLeftAlone(cs: seq<Component>, visit: seq<Issue>, footer: string, dryRun: bool)
    requires forall x :: x in visit ==> x.priority == PriorityOf(Relevant(cs, x), x)
    ensures Notices(cs, visit, footer, dryRun) == [] && Writes(cs, visit, footer, dryRun) == []
    decreases |visit|
  {
    if visit != [] {
      SettledIssuesAreLeftAlone(cs, visit[..|visit| - 1], footer, dryRun);
    }
  }

  /** A dry run writes nothing. */
  lemma {:induction false} DryRunWritesNothing(cs: seq<Component>, visit: seq<Issue>, footer: string)
    ensures Writes(cs, visit, footer, true) == []
    decreases |visit|
  {
    if visit != [] {
      DryRunWritesNothing(cs, visit[..|visit| - 1], footer);
    }
  }
}
