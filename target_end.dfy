/**
 * Target end date from children (program/target_end.py): a parent's target
 * end is the latest target end among its children, once closed children
 * without one are set aside, and only when at least three quarters of the
 * remaining children carry one.
 */
module TargetEnd {
  import opened Common

  /** A closed child without a target end is not counted. */
  predicate Kept(child: Issue)
  {
    child.category != Done || child.targetEnd.Some?
  }

  predicate Estimated(child: Issue)
  {
    child.targetEnd.Some?
  }

  /**
   * The choice the loop keeps: a child with a target end replaces the
   * current choice only when its date is strictly later, so the first of
   * equally late children stays.
   */
  function FirstLatest(s: seq<Issue>): (r: Option<Issue>)
    ensures r.Some? ==> r.value in s && r.value.targetEnd.Some?
    decreases |s|
  {
    if s == [] then None
    else
      var e, x := FirstLatest(s[..|s| - 1]), s[|s| - 1];
      if x.targetEnd.None? then e
      else if e.None? || e.value.targetEnd.value < x.targetEnd.value then Some(x)
      else e
  }

  /** s[i] has a target end, none is later, and every estimated child before it is earlier. */
  ghost predicate IsFirstLatest(s: seq<Issue>, i: nat)
    requires i < |s|
  {
    s[i].targetEnd.Some?
    && (forall j :: 0 <= j < |s| && s[j].targetEnd.Some? ==> s[j].targetEnd.value <= s[i].targetEnd.value)
    && (forall j :: 0 <= j < i && s[j].targetEnd.Some? ==> s[j].targetEnd.value < s[i].targetEnd.value)
  }

  /** The number of children with a target end (estimated_children). */
  function CountEstimated(s: seq<Issue>): (n: nat)
    ensures n <= |s|
    decreases |s|
  {
    if s == [] then 0 else CountEstimated(s[..|s| - 1]) + (if Estimated(s[|s| - 1]) then 1 else 0)
  }

  /** Fewer than 75% of the kept children are estimated; the ratio is compared without division. */
  predicate BelowThreshold(estimated: nat, total: nat)
  {
    total == 0 || 4 * estimated < 3 * total
  }

  function KeptChildren(x: Issue): seq<Issue>
  {
    Filter(x.children, Kept)
  }

  function TargetSource(x: Issue): Option<Issue>
  {
    FirstLatest(KeptChildren(x))
  }

  /** The target end the issue should have. */
  function Target(x: Issue): Option<Date>
  {
    var kept := KeptChildren(x);
    var s := FirstLatest(kept);
    if BelowThreshold(CountEstimated(kept), |kept|) || s.None? then None else s.value.targetEnd
  }

  predicate Changes(x: Issue)
  {
    Target(x) != x.targetEnd
  }

  function UpdateMessage(x: Issue): Msg
  {
    var kept := KeptChildren(x);
    var s := FirstLatest(kept);
    if BelowThreshold(CountEstimated(kept), |kept|) then TargetEndUnderEstimated(None, CountEstimated(kept), |kept|)
    else TargetEndPropagated(Target(x), if s.Some? then Some(s.value.key) else None)
  }

  function Updates(x: Issue): seq<Msg>
  {
    if Changes(x) then [UpdateMessage(x)] else []
  }

  function Writes(x: Issue, dryRun: bool): seq<Write>
  {
    if !dryRun && Changes(x) then [SetTargetEnd(x.key, Target(x))] else []
  }

  /** check_target_end_date. */
  method CheckTargetEndDate(x: Issue, ctx: Context, dryRun: bool)
    modifies ctx
    ensures ctx.updates == old(ctx.updates) + Updates(x)
    ensures ctx.writes == old(ctx.writes) + Writes(x, dryRun)
    ensures ctx.comments == old(ctx.comments) && ctx.nonCompliant == old(ctx.nonCompliant)
  {
    var children := Filter(x.children, Kept);
    var latest, source, estimated := LatestTargetEnd(children);
    var below := BelowThreshold(estimated, |children|);
    var target := if below then None else latest;
    assert target == Target(x);
    if target != x.targetEnd {
      if below {
        ctx.updates := ctx.updates + [TargetEndUnderEstimated(target, estimated, |children|)];
      } else {
        ctx.updates := ctx.updates + [TargetEndPropagated(target, if source.Some? then Some(source.value.key) else None)];
      }
      if !dryRun {
        ctx.writes := ctx.writes + [SetTargetEnd(x.key, target)];
      }
    }
  }

  /** The loop of check_target_end_date: the latest target end, its child, and the number of estimated children. */
  method LatestTargetEnd(children: seq<Issue>) returns (latest: Option<Date>, source: Option<Issue>, estimated: nat)
    ensures source == FirstLatest(children)
    ensures latest == if source.Some? then source.value.targetEnd else None
    ensures estimated == CountEstimated(children)
  {
    latest, source, estimated := None, None, 0;
    for k := 0 to |children|
      invariant source == FirstLatest(children[..k])
      invariant latest == if source.Some? then source.value.targetEnd else None
      invariant estimated == CountEstimated(children[..k])
    {
      assert children[..k + 1][..k] == children[..k];
      var i := children[k];
      if i.targetEnd.Some? {
        estimated := estimated + 1;
        if latest.None? || latest.value < i.targetEnd.value {
          latest := i.targetEnd;
          source := Some(i);
        }
      }
    }
    assert children[..|children|] == children;
  }

  // ---------------------------------------------------------------------
  // Properties.

  /** The children taken into account are exactly the open ones and the closed ones with a target end. */
  lemma KeptChildrenAreTheCountedOnes(x: Issue, c: Issue)
    ensures c in KeptChildren(x) <==> c in x.children && (c.category != Done || c.targetEnd.Some?)
  {
    FilterMembers(x.children, Kept, c);
  }

  /** The running choice is the first child holding the latest target end. */
  lemma {:induction false} FirstLatestIsFirstMaximum(s: seq<Issue>)
    ensures FirstLatest(s).None? <==> forall i :: 0 <= i < |s| ==> s[i].targetEnd.None?
    ensures FirstLatest(s).Some? ==> exists i :: (0 <= i < |s| && s[i] == FirstLatest(s).value && IsFirstLatest(s, i))
    decreases |s|
  {
    if s != [] {
      var t, x := s[..|s| - 1], s[|s| - 1];
      FirstLatestIsFirstMaximum(t);
      var e := FirstLatest(t);
      assert s == t + [x];
      if e.None? {
        NoneBefore(t, x);
      } else {
        var i :| 0 <= i < |t| && t[i] == e.value && IsFirstLatest(t, i);
        assert s[i] == t[i];
        if x.targetEnd.Some? && e.value.targetEnd.value < x.targetEnd.value {
          LaterLast(t, x, i);
        } else {
          KeptBefore(t, x, i);
        }
      }
    }
  }

  /** With no target end before the last child, the last child decides. */
  lemma NoneBefore(t: seq<Issue>, x: Issue)
    requires forall i :: 0 <= i < |t| ==> t[i].targetEnd.None?
    ensures x.targetEnd.Some? ==> IsFirstLatest(t + [x], |t|)
    ensures x.targetEnd.None? ==> forall i :: 0 <= i < |t| + 1 ==> (t + [x])[i].targetEnd.None?
  {
  }

  /** A last child later than the earlier first latest one takes its place. */
  lemma LaterLast(t: seq<Issue>, x: Issue, i: nat)
    requires i < |t| && IsFirstLatest(t, i)
    requires x.targetEnd.Some? && t[i].targetEnd.value < x.targetEnd.value
    ensures IsFirstLatest(t + [x], |t|)
  {
  }

  /** A last child that is not later leaves the earlier first latest one in place. */
  lemma KeptBefore(t: seq<Issue>, x: Issue, i: nat)
    requires i < |t| && IsFirstLatest(t, i)
    requires x.targetEnd.None? || x.targetEnd.value <= t[i].targetEnd.value
    ensures IsFirstLatest(t + [x], i)
  {
  }

  /** The estimated count is the number of kept children that have a target end. */
  lemma {:induction false} CountIsEstimatedChildren(s: seq<Issue>)
    ensures CountEstimated(s) == |Filter(s, Estimated)|
    decreases |s|
  {
    if s != [] {
      CountIsEstimatedChildren(s[..|s| - 1]);
    }
  }

  /**
   * Below the 75% gate (or without children) the target is cleared;
   * at or above it the target is the latest target end of a kept child,
   * the first such child on a tie.
   */
  lemma TargetFollowsGate(x: Issue)
    ensures var kept := KeptChildren(x);
      (BelowThreshold(CountEstimated(kept), |kept|) ==> Target(x).None?)
      && (!BelowThreshold(CountEstimated(kept), |kept|) ==>
            Target(x).Some?
            && exists i :: (0 <= i < |kept| && kept[i] == TargetSource(x).value
                            && kept[i].targetEnd == Target(x) && IsFirstLatest(kept, i)))
  {
    var kept := KeptChildren(x);
    FirstLatestIsFirstMaximum(kept);
    if FirstLatest(kept).None? {
      NoneEstimatedCountsZero(kept);
    }
  }

  lemma {:induction false} NoneEstimatedCountsZero(s: seq<Issue>)
    requires forall i :: 0 <= i < |s| ==> s[i].targetEnd.None?
    ensures CountEstimated(s) == 0
    decreases |s|
  {
    if s != [] {
      NoneEstimatedCountsZero(s[..|s| - 1]);
    }
  }

  /** When every kept child is estimated, the latest target end is propagated. */
  lemma FullyEstimatedPropagates(x: Issue)
    requires KeptChildren(x) != []
    requires forall c :: c in KeptChildren(x) ==> c.targetEnd.Some?
    ensures Target(x).Some? && Target(x) == TargetSource(x).value.targetEnd
  {
    var kept := KeptChildren(x);
    AllEstimatedCountsAll(kept);
    FirstLatestIsFirstMaximum(kept);
    assert kept[0] in kept;
  }

  lemma {:induction false} AllEstimatedCountsAll(s: seq<Issue>)
    requires forall c :: c in s ==> c.targetEnd.Some?
    ensures CountEstimated(s) == |s|
    decreases |s|
  {
    if s != [] {
      AllEstimatedCountsAll(s[..|s| - 1]);
    }
  }

  /**
   * The target end is rewritten, or cleared, exactly when it differs from
   * the target; the line depends on the gate, and only a live run writes.
   */
  lemma UpdateExactlyWhenDifferent(x: Issue, dryRun: bool)
    ensures Updates(x) != [] <==> Target(x) != x.targetEnd
    ensures Writes(x, dryRun) != [] <==> !dryRun && Target(x) != x.targetEnd
    ensures Writes(x, dryRun) != [] ==> Writes(x, dryRun) == [SetTargetEnd(x.key, Target(x))]
    ensures var kept := KeptChildren(x);
      Updates(x) != [] ==>
        (Updates(x)[0].TargetEndUnderEstimated? <==> BelowThreshold(CountEstimated(kept), |kept|))
  {
  }

  /** Once the target is written, the rule has nothing more to do. */
  lemma ApplyingTheTargetSettles(x: Issue, dryRun: bool)
    ensures var y := x.(targetEnd := Target(x));
      Updates(y) == [] && Writes(y, dryRun) == []
  {
    var y := x.(targetEnd := Target(x));
    assert KeptChildren(y) == KeptChildren(x);
  }
}
