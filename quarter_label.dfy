/**
 * Quarter-label reconciliation (team/quarter_label.py): an issue's quarter
 * labels ("2024Q3" and the like) are brought in line with its parent's.
 * Parent quarter labels the issue lacks are added, issue quarter labels the
 * parent lacks are removed, and a live run writes the labels when any
 * changed.
 */
module QuarterLabel {
  import opened Common

  predicate IsDigit(c: char)
  {
    '0' <= c <= '9'
  }

  /** The label starts with four digits, 'Q' and a quarter from 1 to 4 (the pattern is matched at the start only). */
  predicate IsQuarterLabel(l: string)
  {
    |l| >= 6 && IsDigit(l[0]) && IsDigit(l[1]) && IsDigit(l[2]) && IsDigit(l[3]) && l[4] == 'Q' && '1' <= l[5] <= '4'
  }

  // ---------------------------------------------------------------------
  // Adding the parent's quarter labels.

  /**
   * The labels the first loop adds, in parent order. A live run appends as
   * it goes, so a label repeated in the parent is added once; a dry run
   * leaves the labels alone and reports every missing occurrence.
   */
  function Added(parent: seq<string>, labels: seq<string>, dryRun: bool): seq<string>
    decreases |parent|
  {
    if parent == [] then []
    else
      var prev := Added(parent[..|parent| - 1], labels, dryRun);
      var current := if dryRun then labels else labels + prev;
      var l := parent[|parent| - 1];
      prev + (if IsQuarterLabel(l) && l !in current then [l] else [])
  }

  /** The first loop of check_quarter_label. */
  method AddQuarterLabels(parent: seq<string>, labels: seq<string>, dryRun: bool) returns (result: seq<string>, added: seq<string>)
    ensures added == Added(parent, labels, dryRun)
    ensures result == if dryRun then labels else labels + added
  {
    result, added := labels, [];
    for k := 0 to |parent|
      invariant added == Added(parent[..k], labels, dryRun)
      invariant result == if dryRun then labels else labels + added
    {
      assert parent[..k + 1][..k] == parent[..k];
      var l := parent[k];
      if IsQuarterLabel(l) && l !in result {
        added := added + [l];
        if !dryRun {
          result := result + [l];
        }
      }
    }
    assert parent[..|parent|] == parent;
  }

  // ---------------------------------------------------------------------
  // Removing quarter labels the parent does not have.

  predicate Stale(l: string, parent: seq<string>)
  {
    IsQuarterLabel(l) && l !in parent
  }

  /** The stale labels, one per occurrence, in order. */
  function StaleOf(labels: seq<string>, parent: seq<string>): seq<string>
    decreases |labels|
  {
    if labels == [] then []
    else StaleOf(labels[..|labels| - 1], parent) + (if Stale(labels[|labels| - 1], parent) then [labels[|labels| - 1]] else [])
  }

  /** The other labels, in order. */
  function KeptOf(labels: seq<string>, parent: seq<string>): seq<string>
    decreases |labels|
  {
    if labels == [] then []
    else KeptOf(labels[..|labels| - 1], parent) + (if Stale(labels[|labels| - 1], parent) then [] else [labels[|labels| - 1]])
  }

  /** The stale labels are reported, the others kept, and nothing else. */
  lemma {:induction false} StaleAndKeptMembers(labels: seq<string>, parent: seq<string>)
    ensures forall l :: l in StaleOf(labels, parent) <==> l in labels && Stale(l, parent)
    ensures forall l :: l in KeptOf(labels, parent) <==> l in labels && !Stale(l, parent)
    decreases |labels|
  {
    if labels != [] {
      var t := labels[..|labels| - 1];
      StaleAndKeptMembers(t, parent);
      assert labels == t + [labels[|labels| - 1]];
    }
  }

  /** One more label visited: the stale list or the kept list grows by it. */
  lemma StaleAndKeptStep(labels: seq<string>, parent: seq<string>, k: nat)
    requires k < |labels|
    ensures StaleOf(labels[..k + 1], parent) == StaleOf(labels[..k], parent) + (if Stale(labels[k], parent) then [labels[k]] else [])
    ensures KeptOf(labels[..k + 1], parent) == KeptOf(labels[..k], parent) + (if Stale(labels[k], parent) then [] else [labels[k]])
  {
    assert labels[..k + 1][..k] == labels[..k];
  }

  /**
   * The second loop as written: it walks the list it removes from, so the
   * label right after a removed one moves into the visited slot and is
   * never looked at. Result: the labels left and the labels reported.
   */
  function RemoveAsWritten(labels: seq<string>, parent: seq<string>, dryRun: bool, i: nat): (r: (seq<string>, seq<string>))
    ensures forall l :: l in r.1 ==> Stale(l, parent)
    ensures dryRun ==> r.0 == labels
    ensures !dryRun ==> multiset(r.0) + multiset(r.1) == multiset(labels)
    decreases |labels| - i
  {
    if i >= |labels| then (labels, [])
    else
      var l := labels[i];
      if Stale(l, parent) then
        if dryRun then
          var rest := RemoveAsWritten(labels, parent, dryRun, i + 1);
          (rest.0, [l] + rest.1)
        else
          var rest := RemoveAsWritten(RemoveFirst(labels, l), parent, dryRun, i + 1);
          RemovedOnce(labels, l, rest.0, rest.1);
          (rest.0, [l] + rest.1)
      else RemoveAsWritten(labels, parent, dryRun, i + 1)
  }

  /** What remains after removing l, together with l, is the list before. */
  lemma RemovedOnce(labels: seq<string>, l: string, left: seq<string>, reported: seq<string>)
    requires l in labels
    requires multiset(left) + multiset(reported) == multiset(RemoveFirst(labels, l))
    ensures multiset(left) + multiset([l] + reported) == multiset(labels)
  {
    RemoveFirstMultiset(labels, l);
    var m := multiset(labels);
    assert l in m;
    assert multiset([l] + reported) == multiset{l} + multiset(reported);
    assert (m - multiset{l}) + multiset{l} == m;
  }

  /**
   * The second loop as intended: walking a copy, every stale label is
   * reported and, in a live run, removed.
   */
  method RemoveStaleQuarterLabels(parent: seq<string>, labels: seq<string>, dryRun: bool) returns (result: seq<string>, removed: seq<string>)
    ensures removed == StaleOf(labels, parent)
    ensures result == if dryRun then labels else KeptOf(labels, parent)
  {
    result, removed := labels, [];
    for k := 0 to |labels|
      invariant removed == StaleOf(labels[..k], parent)
      invariant dryRun ==> result == labels
      invariant !dryRun ==> result == KeptOf(labels[..k], parent) + labels[k..]
    {
      StaleAndKeptStep(labels, parent, k);
      var l := labels[k];
      if Stale(l, parent) {
        removed := removed + [l];
        if !dryRun {
          RemoveVisited(labels, parent, k);
          result := RemoveFirst(result, l);
        }
      } else {
        KeepVisited(labels, parent, k);
      }
    }
    assert labels[..|labels|] == labels;
  }

  /** Removing the first copy of the stale label at k, once the labels before k are reconciled, reconciles one more. */
  lemma RemoveVisited(labels: seq<string>, parent: seq<string>, k: nat)
    requires k < |labels| && Stale(labels[k], parent)
    ensures RemoveFirst(KeptOf(labels[..k], parent) + labels[k..], labels[k]) == KeptOf(labels[..k + 1], parent) + labels[k + 1..]
  {
    StaleAndKeptMembers(labels[..k], parent);
    StaleAndKeptStep(labels, parent, k);
    RemoveFirstAfter(KeptOf(labels[..k], parent), labels[k..], labels[k]);
    assert labels[k..][1..] == labels[k + 1..];
  }

  /** Passing over a label that is not stale also reconciles one more. */
  lemma KeepVisited(labels: seq<string>, parent: seq<string>, k: nat)
    requires k < |labels| && !Stale(labels[k], parent)
    ensures KeptOf(labels[..k], parent) + labels[k..] == KeptOf(labels[..k + 1], parent) + labels[k + 1..]
  {
    StaleAndKeptStep(labels, parent, k);
    assert labels[k..] == [labels[k]] + labels[k + 1..];
  }

  // ---------------------------------------------------------------------
  // The rule.

  /** The labels after the first loop. */
  function WithAdded(x: Issue, dryRun: bool): seq<string>
    requires x.parent.Some?
  {
    var added := Added(x.parent.value.labels, x.labels, dryRun);
    if dryRun then x.labels else x.labels + added
  }

  /** The labels the issue ends with. */
  function FinalLabels(x: Issue, dryRun: bool): seq<string>
  {
    if x.parent.None? || dryRun then x.labels
    else KeptOf(WithAdded(x, dryRun), x.parent.value.labels)
  }

  function Updates(x: Issue, dryRun: bool): seq<Msg>
  {
    if x.parent.None? then []
    else
      Adding(Added(x.parent.value.labels, x.labels, dryRun))
      + Removing(StaleOf(WithAdded(x, dryRun), x.parent.value.labels))
  }

  function Adding(ls: seq<string>): seq<Msg>
  {
    if ls == [] then [] else [AddingLabel(ls[0])] + Adding(ls[1..])
  }

  function Removing(ls: seq<string>): seq<Msg>
  {
    if ls == [] then [] else [RemovingLabel(ls[0])] + Removing(ls[1..])
  }

  /** Whether a live run changed the labels. */
  predicate Updated(x: Issue, dryRun: bool)
  {
    x.parent.Some? && !dryRun
    && (Added(x.parent.value.labels, x.labels, dryRun) != [] || StaleOf(WithAdded(x, dryRun), x.parent.value.labels) != [])
  }

  function Writes(x: Issue, dryRun: bool): seq<Write>
  {
    if Updated(x, dryRun) then [SetLabels(x.key, FinalLabels(x, dryRun))] else []
  }

  /** The two loops of check_quarter_label, the second walking a copy of the labels. */
  method ReconcileQuarterLabels(parent: seq<string>, labels: seq<string>, dryRun: bool)
    returns (result: seq<string>, added: seq<string>, removed: seq<string>)
    ensures added == Added(parent, labels, dryRun)
    ensures removed == StaleOf(if dryRun then labels else labels + added, parent)
    ensures result == if dryRun then labels else KeptOf(labels + added, parent)
  {
    var withAdded;
    withAdded, added := AddQuarterLabels(parent, labels, dryRun);
    result, removed := RemoveStaleQuarterLabels(parent, withAdded, dryRun);
  }

  /** check_quarter_label, with the second loop walking a copy of the labels. */
  method CheckQuarterLabel(x: Issue, ctx: Context, dryRun: bool) returns (labels: seq<string>)
    modifies ctx
    ensures labels == FinalLabels(x, dryRun)
    ensures ctx.updates == old(ctx.updates) + Updates(x, dryRun)
    ensures ctx.writes == old(ctx.writes) + Writes(x, dryRun)
    ensures ctx.comments == old(ctx.comments) && ctx.nonCompliant == old(ctx.nonCompliant)
  {
    labels := x.labels;
    if x.parent.None? {
      return;
    }
    var added, removed;
    labels, added, removed := ReconcileQuarterLabels(x.parent.value.labels, x.labels, dryRun);
    assert removed == StaleOf(WithAdded(x, dryRun), x.parent.value.labels);
    assert labels == FinalLabels(x, dryRun);
    ctx.updates := ctx.updates + (Adding(added) + Removing(removed));
    if !dryRun && (added != [] || removed != []) {
      ctx.writes := ctx.writes + [SetLabels(x.key, labels)];
    }
  }

  // ---------------------------------------------------------------------
  // Properties.

  /** Without a parent nothing happens. */
  lemma ParentlessIsLeftAlone(x: Issue, dryRun: bool)
    requires x.parent.None?
    ensures Updates(x, dryRun) == [] && Writes(x, dryRun) == [] && FinalLabels(x, dryRun) == x.labels
  {
  }

  /** Only quarter labels of the parent that the issue lacks are added; a live run adds each once. */
  lemma {:induction false} AddedAreMissingParentQuarterLabels(parent: seq<string>, labels: seq<string>, dryRun: bool)
    ensures forall l :: l in Added(parent, labels, dryRun) ==> l in parent && IsQuarterLabel(l) && l !in labels
    ensures !dryRun ==> Distinct(Added(parent, labels, dryRun))
    ensures forall l :: l in parent && IsQuarterLabel(l) && l !in labels ==> l in Added(parent, labels, dryRun)
    decreases |parent|
  {
    if parent != [] {
      var t := parent[..|parent| - 1];
      AddedAreMissingParentQuarterLabels(t, labels, dryRun);
      assert parent == t + [parent[|parent| - 1]];
    }
  }

  /**
   * After a live run the issue holds exactly the parent's quarter labels,
   * and its other labels are untouched.
   */
  lemma LiveRunReconciles(x: Issue)
    requires x.parent.Some?
    ensures forall l :: IsQuarterLabel(l) ==> (l in FinalLabels(x, false) <==> l in x.parent.value.labels)
    ensures forall l :: !IsQuarterLabel(l) ==> (l in FinalLabels(x, false) <==> l in x.labels)
  {
    AddedAreMissingParentQuarterLabels(x.parent.value.labels, x.labels, false);
    StaleAndKeptMembers(WithAdded(x, false), x.parent.value.labels);
  }

  /** A dry run reports but changes and writes nothing. */
  lemma DryRunChangesNothing(x: Issue)
    ensures FinalLabels(x, true) == x.labels && Writes(x, true) == []
  {
  }

  /** Once the labels are written, running the rule again reports and writes nothing. */
  lemma ApplyingTheLabelsSettles(x: Issue)
    requires x.parent.Some?
    ensures var y := x.(labels := FinalLabels(x, false));
      Updates(y, false) == [] && Writes(y, false) == []
  {
    var y := x.(labels := FinalLabels(x, false));
    var parent := x.parent.value.labels;
    LiveRunReconciles(x);
    AddedAreMissingParentQuarterLabels(parent, y.labels, false);
    NothingMissingNothingAdded(parent, y.labels);
    assert WithAdded(y, false) == y.labels;
    NothingStale(y.labels, parent);
  }

  lemma {:induction false} NothingMissingNothingAdded(parent: seq<string>, labels: seq<string>)
    requires forall l :: l in parent && IsQuarterLabel(l) ==> l in labels
    ensures Added(parent, labels, false) == []
    decreases |parent|
  {
    if parent != [] {
      NothingMissingNothingAdded(parent[..|parent| - 1], labels);
    }
  }

  lemma NothingStale(labels: seq<string>, parent: seq<string>)
    requires forall l :: l in labels && IsQuarterLabel(l) ==> l in parent
    ensures StaleOf(labels, parent) == []
  {
    StaleAndKeptMembers(labels, parent);
    if StaleOf(labels, parent) != [] {
      assert StaleOf(labels, parent)[0] in StaleOf(labels, parent);
    }
  }

  /**
   * The loop as written skips the label after a removed one: with two
   * stale quarter labels, a live run reports and removes only the first,
   * where the intended rule removes both.
   */
  lemma AsWrittenSkipsTheNextLabel()
    ensures RemoveAsWritten(["2023Q1", "2023Q2"], [], false, 0) == (["2023Q2"], ["2023Q1"])
    ensures StaleOf(["2023Q1", "2023Q2"], []) == ["2023Q1", "2023Q2"]
    ensures KeptOf(["2023Q1", "2023Q2"], []) == []
  {
    var ls: seq<string> := ["2023Q1", "2023Q2"];
    var q1, q2 := ls[0], ls[1];
    assert Stale(q1, []) && Stale(q2, []);
    assert RemoveFirst(ls, q1) == [q2];
    var rest := RemoveAsWritten([q2], [], false, 1);
    assert rest == ([q2], []);
    assert RemoveAsWritten(ls, [], false, 0) == (rest.0, [q1] + rest.1);
    assert [q1] + rest.1 == [q1];
    assert RemoveAsWritten(ls, [], false, 0) == ([q2], [q1]);
    assert ls[..1] == [q1] && ls[..2] == ls && ls[..1][..0] == [];
  }
}
