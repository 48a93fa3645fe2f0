/**
 * Fix-version reconciliation (team/outcome_version.py): an issue carries,
 * among the fix versions named like issue keys, only the one named after
 * the Outcome its parent belongs to. Other key-like versions are removed,
 * the Outcome's version is added when missing, and a live run writes the
 * names of the resulting list.
 */
module OutcomeVersion {
  import opened Common

  predicate IsUpper(c: char)
  {
    'A' <= c <= 'Z'
  }

  /**
   * The pattern "[A-Z]*-[0-9]*" matched at the start of a name: the run of
   * capitals the name starts with is followed by a hyphen (the digits may
   * be absent).
   */
  predicate IssueKeyLike(name: string)
    decreases |name|
  {
    name != [] && if IsUpper(name[0]) then IssueKeyLike(name[1..]) else name[0] == '-'
  }

  /** The version the issue should carry: the key of its parent's parent, when that is an Outcome. */
  function TargetVersion(x: Issue): Option<string>
    requires x.parent.Some?
  {
    var outcome := x.parent.value.parent;
    if outcome.None? || outcome.value.issueType != "Outcome" then None else Some(outcome.value.key)
  }

  /** A key-like version other than the target is dropped. */
  predicate Dropped(fv: FixVersion, target: Option<string>)
  {
    IssueKeyLike(fv.name) && target != Some(fv.name)
  }

  function DropFor(target: Option<string>): FixVersion -> bool
  {
    fv => Dropped(fv, target)
  }

  function KeepFor(target: Option<string>): FixVersion -> bool
  {
    fv => !Dropped(fv, target)
  }

  function Names(fvs: seq<FixVersion>): (r: seq<string>)
    ensures |r| == |fvs| && forall i :: 0 <= i < |fvs| ==> r[i] == fvs[i].name
  {
    if fvs == [] then [] else [fvs[0].name] + Names(fvs[1..])
  }

  function RemovingMessages(fvs: seq<FixVersion>): seq<Msg>
  {
    if fvs == [] then [] else [RemovingFixVersion(fvs[0].name)] + RemovingMessages(fvs[1..])
  }

  /** One removal line per version, naming it, in order. */
  lemma {:induction false} RemovingMessagesNameEach(fvs: seq<FixVersion>)
    ensures |RemovingMessages(fvs)| == |fvs|
    ensures forall i :: 0 <= i < |fvs| ==> RemovingMessages(fvs)[i] == RemovingFixVersion(fvs[i].name)
  {
    if fvs != [] {
      RemovingMessagesNameEach(fvs[1..]);
    }
  }

  /** The versions removed, in list order. */
  function Removed(x: Issue): seq<FixVersion>
    requires x.parent.Some?
  {
    Filter(x.fixVersions, DropFor(TargetVersion(x)))
  }

  /** The versions left after the removal loop. */
  function Remaining(x: Issue): seq<FixVersion>
    requires x.parent.Some?
  {
    Filter(x.fixVersions, KeepFor(TargetVersion(x)))
  }

  /** The target version is added when it is a non-empty name missing from the remaining list. */
  predicate AddsTarget(x: Issue)
    requires x.parent.Some?
  {
    var t := TargetVersion(x);
    t.Some? && t.value != "" && t.value !in Names(Remaining(x))
  }

  /**
   * The issue's fix versions after the rule, in a dry run too: the source
   * edits the issue's own list either way and only skips the write. The
   * added version is the one the tracker finds or creates under the
   * target's name; its release date is given as `release`.
   */
  function FinalVersions(x: Issue, release: Option<Date>): seq<FixVersion>
  {
    if x.parent.None? then x.fixVersions
    else Remaining(x) + (if AddsTarget(x) then [FixVersion(TargetVersion(x).value, release)] else [])
  }

  function Updates(x: Issue): seq<Msg>
  {
    if x.parent.None? then []
    else RemovingMessages(Removed(x)) + (if AddsTarget(x) then [AddingFixVersion(TargetVersion(x).value)] else [])
  }

  predicate Updated(x: Issue)
  {
    x.parent.Some? && (Removed(x) != [] || AddsTarget(x))
  }

  function Writes(x: Issue, dryRun: bool, release: Option<Date>): seq<Write>
  {
    if Updated(x) && !dryRun then [SetFixVersions(x.key, Names(FinalVersions(x, release)))] else []
  }

  /** The removal loop of set_fix_version, walking a copy of the list. */
  method RemoveOtherKeyVersions(fvs: seq<FixVersion>, target: Option<string>) returns (result: seq<FixVersion>, removed: seq<FixVersion>)
    ensures result == Filter(fvs, KeepFor(target))
    ensures removed == Filter(fvs, DropFor(target))
  {
    result, removed := fvs, [];
    for k := 0 to |fvs|
      invariant removed == Filter(fvs[..k], DropFor(target))
      invariant result == Filter(fvs[..k], KeepFor(target)) + fvs[k..]
    {
      VisitStep(fvs, target, k);
      var fv := fvs[k];
      if IssueKeyLike(fv.name) && Some(fv.name) != target {
        removed := removed + [fv];
        result := RemoveFirst(result, fv);
      }
    }
    assert fvs[..|fvs|] == fvs;
  }

  /** One more version visited: dropped ones are reported and taken out, the others stay. */
  lemma VisitStep(fvs: seq<FixVersion>, target: Option<string>, k: nat)
    requires k < |fvs|
    ensures Filter(fvs[..k + 1], DropFor(target))
            == Filter(fvs[..k], DropFor(target)) + (if Dropped(fvs[k], target) then [fvs[k]] else [])
    ensures Filter(fvs[..k + 1], KeepFor(target)) + fvs[k + 1..]
            == if Dropped(fvs[k], target) then RemoveFirst(Filter(fvs[..k], KeepFor(target)) + fvs[k..], fvs[k])
               else Filter(fvs[..k], KeepFor(target)) + fvs[k..]
  {
    FilterStep(fvs, DropFor(target), k);
    if Dropped(fvs[k], target) {
      RemoveVisited(fvs, target, k);
    } else {
      KeepVisited(fvs, target, k);
    }
  }

  /** Removing the first copy of the dropped version at k, once the versions before k are filtered, filters one more. */
  lemma RemoveVisited(fvs: seq<FixVersion>, target: Option<string>, k: nat)
    requires k < |fvs| && Dropped(fvs[k], target)
    ensures RemoveFirst(Filter(fvs[..k], KeepFor(target)) + fvs[k..], fvs[k])
            == Filter(fvs[..k + 1], KeepFor(target)) + fvs[k + 1..]
  {
    FilterStep(fvs, KeepFor(target), k);
    FilterMembers(fvs[..k], KeepFor(target), fvs[k]);
    RemoveFirstAfter(Filter(fvs[..k], KeepFor(target)), fvs[k..], fvs[k]);
    assert fvs[k..][1..] == fvs[k + 1..];
  }

  /** Passing over a version that is kept also filters one more. */
  lemma KeepVisited(fvs: seq<FixVersion>, target: Option<string>, k: nat)
    requires k < |fvs| && !Dropped(fvs[k], target)
    ensures Filter(fvs[..k], KeepFor(target)) + fvs[k..] == Filter(fvs[..k + 1], KeepFor(target)) + fvs[k + 1..]
  {
    FilterStep(fvs, KeepFor(target), k);
    assert fvs[k..] == [fvs[k]] + fvs[k + 1..];
  }

  /**
   * The list edits of set_fix_version: the removal loop, then the target
   * version appended when it is a non-empty name missing from the list.
   */
  method ReconcileVersions(fvs: seq<FixVersion>, target: Option<string>, release: Option<Date>)
    returns (result: seq<FixVersion>, removed: seq<FixVersion>, added: bool)
    ensures removed == Filter(fvs, DropFor(target))
    ensures added <==> target.Some? && target.value != "" && target.value !in Names(Filter(fvs, KeepFor(target)))
    ensures result == Filter(fvs, KeepFor(target)) + (if added then [FixVersion(target.value, release)] else [])
  {
    result, removed := RemoveOtherKeyVersions(fvs, target);
    added := false;
    if target.Some? && target.value != "" && target.value !in Names(result) {
      added := true;
      result := result + [FixVersion(target.value, release)];
    }
  }

  /** set_fix_version; `release` is the release date of the version the tracker finds or creates. */
  method SetFixVersion(x: Issue, ctx: Context, dryRun: bool, release: Option<Date>) returns (fixVersions: seq<FixVersion>)
    modifies ctx
    ensures fixVersions == FinalVersions(x, release)
    ensures ctx.updates == old(ctx.updates) + Updates(x)
    ensures ctx.writes == old(ctx.writes) + Writes(x, dryRun, release)
    ensures ctx.comments == old(ctx.comments) && ctx.nonCompliant == old(ctx.nonCompliant)
  {
    fixVersions := x.fixVersions;
    if x.parent.None? {
      return;
    }
    var outcome := x.parent.value.parent;
    var versionName: Option<string> := if outcome.None? || outcome.value.issueType != "Outcome" then None else Some(outcome.value.key);
    assert versionName == TargetVersion(x);
    var removed, added;
    fixVersions, removed, added := ReconcileVersions(fixVersions, versionName, release);
    var updates := RemovingMessages(removed);
    if added {
      updates := updates + [AddingFixVersion(versionName.value)];
    }
    var writes := [];
    var updated := removed != [] || added;
    if updated && !dryRun {
      writes := [SetFixVersions(x.key, Names(fixVersions))];
    }
    ctx.updates, ctx.writes := ctx.updates + updates, ctx.writes + writes;
  }

  // ---------------------------------------------------------------------
  // Properties.

  /** The name test is the regular expression's prefix match. */
  lemma {:induction false} IssueKeyLikeIsPrefixMatch(name: string)
    ensures IssueKeyLike(name) <==>
      exists n :: 0 <= n < |name| && name[n] == '-' && forall j :: 0 <= j < n ==> IsUpper(name[j])
    decreases |name|
  {
    if name != [] {
      if IsUpper(name[0]) {
        var rest := name[1..];
        IssueKeyLikeIsPrefixMatch(rest);
        if IssueKeyLike(name) {
          var n :| 0 <= n < |rest| && rest[n] == '-' && forall j :: 0 <= j < n ==> IsUpper(rest[j]);
          assert name[n + 1] == '-';
          assert forall j :: 0 <= j < n + 1 ==> IsUpper(name[j]) by {
            forall j | 0 < j < n + 1
              ensures IsUpper(name[j])
            {
              assert name[j] == rest[j - 1];
            }
          }
        }
        if exists n :: 0 <= n < |name| && name[n] == '-' && forall j :: 0 <= j < n ==> IsUpper(name[j]) {
          var n :| 0 <= n < |name| && name[n] == '-' && forall j :: 0 <= j < n ==> IsUpper(name[j]);
          assert n != 0;
          assert rest[n - 1] == '-';
          assert forall j :: 0 <= j < n - 1 ==> IsUpper(rest[j]) by {
            forall j | 0 <= j < n - 1
              ensures IsUpper(rest[j])
            {
              assert rest[j] == name[j + 1];
            }
          }
        }
      }
    }
  }

  /** Issue keys such as "ABC-123" are key-like. */
  lemma IssueKeyIsKeyLike()
    ensures IssueKeyLike("ABC-123") && IssueKeyLike("-") && !IssueKeyLike("v1.0") && !IssueKeyLike("ABC")
  {
    assert "ABC-123"[1..] == "BC-123" && "BC-123"[1..] == "C-123" && "C-123"[1..] == "-123";
    assert "ABC"[1..] == "BC" && "BC"[1..] == "C" && "C"[1..] == "";
  }

  /** A parentless issue is left alone. */
  lemma ParentlessIsLeftAlone(x: Issue, dryRun: bool, release: Option<Date>)
    requires x.parent.None?
    ensures FinalVersions(x, release) == x.fixVersions && Updates(x) == [] && Writes(x, dryRun, release) == []
  {
  }

  /** Exactly the key-like versions other than the target are removed, each with its own line. */
  lemma RemovedAreOtherKeyVersions(x: Issue, fv: FixVersion)
    requires x.parent.Some?
    ensures fv in Removed(x) <==> fv in x.fixVersions && IssueKeyLike(fv.name) && TargetVersion(x) != Some(fv.name)
    ensures |Updates(x)| >= |Removed(x)|
    ensures forall i :: 0 <= i < |Removed(x)| ==> Updates(x)[i] == RemovingFixVersion(Removed(x)[i].name)
  {
    FilterMembers(x.fixVersions, DropFor(TargetVersion(x)), fv);
    RemovingMessagesNameEach(Removed(x));
  }

  /**
   * After the rule, the only key-like version left is the target, the
   * target is there whenever there is one, every version that is not
   * key-like is kept, and nothing else appears.
   */
  lemma Reconciles(x: Issue, release: Option<Date>)
    requires x.parent.Some?
    ensures var t, fs := TargetVersion(x), FinalVersions(x, release);
      (forall fv :: fv in fs && IssueKeyLike(fv.name) ==> t == Some(fv.name))
      && (forall fv :: fv in x.fixVersions && !IssueKeyLike(fv.name) ==> fv in fs)
      && (t.Some? && t.value != "" ==> t.value in Names(fs))
      && (forall fv :: fv in fs ==> fv in x.fixVersions || fv == FixVersion(t.value, release))
  {
    RemainingMembers(x);
    TargetPresent(x, release);
  }

  /** The versions left are exactly the issue's versions that are not dropped. */
  lemma RemainingMembers(x: Issue)
    requires x.parent.Some?
    ensures forall fv :: fv in Remaining(x) <==> fv in x.fixVersions && !Dropped(fv, TargetVersion(x))
  {
    forall fv | fv in x.fixVersions || fv in Remaining(x)
      ensures fv in Remaining(x) <==> fv in x.fixVersions && !Dropped(fv, TargetVersion(x))
    {
      FilterMembers(x.fixVersions, KeepFor(TargetVersion(x)), fv);
    }
  }

  /** A non-empty target name is among the final version names. */
  lemma TargetPresent(x: Issue, release: Option<Date>)
    requires x.parent.Some?
    ensures var t := TargetVersion(x); t.Some? && t.value != "" ==> t.value in Names(FinalVersions(x, release))
  {
    var t, fs := TargetVersion(x), FinalVersions(x, release);
    if t.Some? && t.value != "" {
      if AddsTarget(x) {
        assert Names(fs)[|fs| - 1] == t.value;
      } else {
        var i :| 0 <= i < |Remaining(x)| && Names(Remaining(x))[i] == t.value;
        assert Names(fs)[i] == t.value;
      }
    }
  }

  /**
   * Something is reported, and a live run writes, exactly when the
   * issue's list changes.
   */
  lemma UpdatedExactlyWhenChanged(x: Issue, dryRun: bool, release: Option<Date>)
    requires x.parent.Some?
    ensures Updated(x) <==> FinalVersions(x, release) != x.fixVersions
    ensures Writes(x, dryRun, release) != [] <==> !dryRun && FinalVersions(x, release) != x.fixVersions
    ensures Updates(x) == [] <==> !Updated(x)
  {
    var t := TargetVersion(x);
    if Removed(x) != [] {
      var d := Removed(x)[0];
      assert d in Removed(x);
      FilterMembers(x.fixVersions, DropFor(t), d);
      Reconciles(x, release);
      assert d in x.fixVersions && d !in FinalVersions(x, release);
    } else {
      forall fv | fv in x.fixVersions
        ensures KeepFor(t)(fv)
      {
        FilterMembers(x.fixVersions, DropFor(t), fv);
      }
      FilterAll(x.fixVersions, KeepFor(t));
    }
  }

  /** Running the rule on its own result reports and writes nothing. */
  lemma ApplyingTheVersionsSettles(x: Issue, dryRun: bool, release: Option<Date>)
    requires x.parent.Some?
    ensures var y := x.(fixVersions := FinalVersions(x, release));
      Updates(y) == [] && Writes(y, dryRun, release) == [] && FinalVersions(y, release) == y.fixVersions
  {
    var y := x.(fixVersions := FinalVersions(x, release));
    var t := TargetVersion(x);
    assert TargetVersion(y) == t;
    Reconciles(x, release);
    forall fv | fv in y.fixVersions
      ensures !DropFor(t)(fv) && KeepFor(t)(fv)
    {
    }
    FilterNone(y.fixVersions, DropFor(t));
    FilterAll(y.fixVersions, KeepFor(t));
    assert Remaining(y) == y.fixVersions;
  }
}
