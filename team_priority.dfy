/**
 * Priority propagation (team/priority.py): an issue takes the highest
 * priority among the issues it blocks and its parent, on the scale
 * Undefined < Minor < Normal < Major < Critical < Blocker.
 */
module TeamPriority {
  import opened Common
  import DueDate

  /** The priority scale, lowest first. */
  const Levels: seq<string> := ["Undefined", "Minor", "Normal", "Major", "Critical", "Blocker"]

  /** PRIORITY.index(name): the level of a known name; an unknown name is an error. */
  function Level(name: string): (r: Result<nat, string>)
    ensures r.Ok? <==> name in Levels
    ensures r.Ok? ==> r.value < |Levels| && Levels[r.value] == name
    ensures r.Err? ==> r.error == name
  {
    if name in Levels then Ok(IndexOf(Levels, name)) else Err(name)
  }

  /** The highest level among the issues (0 for none), or the first unknown priority name. */
  function MaxLevel(issues: seq<Issue>): (r: Result<nat, string>)
    ensures r.Ok? ==> r.value < |Levels|
    decreases |issues|
  {
    if issues == [] then Ok(0)
    else
      var l := Level(issues[0].priority);
      if l.Err? then Err(l.error)
      else
        var m := MaxLevel(issues[1..]);
        if m.Err? then m
        else if l.value < m.value then m else l
  }

  /** _get_max_priority. */
  function MaxPriority(issues: seq<Issue>): Result<string, string>
  {
    var m := MaxLevel(issues);
    if m.Ok? then Ok(Levels[m.value]) else Err(m.error)
  }

  function Updates(x: Issue): seq<Msg>
  {
    var t := MaxPriority(DueDate.Related(x));
    if t.Ok? && x.priority != t.value then [PrioritySet(t.value, x.priority)] else []
  }

  function Writes(x: Issue, dryRun: bool): seq<Write>
  {
    var t := MaxPriority(DueDate.Related(x));
    if t.Ok? && !dryRun then [SetPriority(x.key, t.value)] else []
  }

  /**
   * check_priority. The result is false where the source raises on an
   * unknown priority name, before appending or writing anything.
   */
  method CheckPriority(x: Issue, ctx: Context, dryRun: bool) returns (ok: bool)
    modifies ctx
    ensures ok <==> MaxPriority(DueDate.Related(x)).Ok?
    ensures ctx.updates == old(ctx.updates) + Updates(x)
    ensures ctx.writes == old(ctx.writes) + Writes(x, dryRun)
    ensures ctx.comments == old(ctx.comments) && ctx.nonCompliant == old(ctx.nonCompliant)
  {
    var related := x.blocks;
    if x.parent.Some? {
      related := related + [x.parent.value];
    }
    assert related == DueDate.Related(x);
    var target := MaxPriority(related);
    if target.Err? {
      return false;
    }
    if x.priority != target.value {
      ctx.updates := ctx.updates + [PrioritySet(target.value, x.priority)];
    }
    if !dryRun {
      ctx.writes := ctx.writes + [SetPriority(x.key, target.value)];
    }
    return true;
  }

  // ---------------------------------------------------------------------
  // Properties.

  /** Every issue has a known priority at or below the maximum level. */
  lemma {:induction false} MaxLevelIsUpperBound(issues: seq<Issue>)
    requires MaxLevel(issues).Ok?
    ensures forall i :: 0 <= i < |issues| ==>
      Level(issues[i].priority).Ok? && Level(issues[i].priority).value <= MaxLevel(issues).value
    decreases |issues|
  {
    if issues != [] {
      var rest := issues[1..];
      MaxLevelIsUpperBound(rest);
      forall i | 0 < i < |issues|
        ensures issues[i] == rest[i - 1]
      {
      }
    }
  }

  /** The maximum level is the level of one of the issues, and 0 when there are none. */
  lemma {:induction false} MaxLevelIsAttained(issues: seq<Issue>)
    requires MaxLevel(issues).Ok?
    ensures issues == [] ==> MaxLevel(issues).value == 0
    ensures issues != [] ==> exists i :: 0 <= i < |issues| && Level(issues[i].priority) == Ok(MaxLevel(issues).value)
    decreases |issues|
  {
    if issues != [] {
      var rest := issues[1..];
      var l, m := Level(issues[0].priority), MaxLevel(rest);
      assert l.Ok? && m.Ok?;
      MaxLevelIsAttained(rest);
      if l.value < m.value {
        var j :| 0 <= j < |rest| && Level(rest[j].priority) == Ok(m.value);
        assert issues[j + 1] == rest[j];
      }
    }
  }

  /**
   * The maximum is on the scale, no issue is above it, and it is the
   * priority of one of them ("Undefined" when there are none).
   */
  lemma MaxPriorityIsHighest(issues: seq<Issue>)
    requires MaxPriority(issues).Ok?
    ensures var p := MaxPriority(issues).value;
      p in Levels
      && (forall i :: 0 <= i < |issues| ==>
            Level(issues[i].priority).Ok? && Level(issues[i].priority).value <= Level(p).value)
      && (issues == [] ==> p == "Undefined")
      && (issues != [] ==> exists i :: 0 <= i < |issues| && issues[i].priority == p)
  {
    MaxLevelIsUpperBound(issues);
    MaxLevelIsAttained(issues);
    LevelsAreDistinct();
    IndexOfDistinct(Levels, MaxLevel(issues).value);
    if issues != [] {
      var i :| 0 <= i < |issues| && Level(issues[i].priority).value == MaxLevel(issues).value;
      assert issues[i].priority == MaxPriority(issues).value;
    }
  }

  lemma LevelsAreDistinct()
    ensures Distinct(Levels)
  {
  }

  /** An unknown priority name is an error naming the first such issue. */
  lemma {:induction false} UnknownNameIsError(issues: seq<Issue>)
    ensures MaxPriority(issues).Err? <==> exists i :: 0 <= i < |issues| && issues[i].priority !in Levels
    ensures MaxPriority(issues).Err? ==>
      exists i :: (0 <= i < |issues| && issues[i].priority == MaxPriority(issues).error
                   && issues[i].priority !in Levels
                   && forall j :: 0 <= j < i ==> issues[j].priority in Levels)
    decreases |issues|
  {
    if issues != [] {
      var rest := issues[1..];
      UnknownNameIsError(rest);
      if Level(issues[0].priority).Ok? && MaxLevel(rest).Err? {
        var i :| 0 <= i < |rest| && rest[i].priority == MaxPriority(rest).error && rest[i].priority !in Levels
          && forall j :: 0 <= j < i ==> rest[j].priority in Levels;
        assert issues[i + 1] == rest[i];
        forall j | 0 <= j < i + 1
          ensures issues[j].priority in Levels
        {
          if j > 0 {
            assert issues[j] == rest[j - 1];
          }
        }
      }
      if Level(issues[0].priority).Ok? && MaxLevel(rest).Ok? {
        forall i | 0 <= i < |issues|
          ensures issues[i].priority in Levels
        {
          if i > 0 {
            assert issues[i] == rest[i - 1];
          }
        }
      }
    }
  }

  /**
   * A line is printed only when the priority changes, while a live run
   * writes the priority even when it is unchanged.
   */
  lemma MessageOnChangeWriteAlways(x: Issue, dryRun: bool)
    requires MaxPriority(DueDate.Related(x)).Ok?
    ensures var t := MaxPriority(DueDate.Related(x)).value;
      (Updates(x) != [] <==> x.priority != t)
      && (Writes(x, dryRun) == if dryRun then [] else [SetPriority(x.key, t)])
  {
  }

  /** Without related issues the priority becomes "Undefined". */
  lemma NothingRelatedIsUndefined(x: Issue)
    requires x.blocks == [] && x.parent.None?
    ensures MaxPriority(DueDate.Related(x)) == Ok("Undefined")
  {
  }

  /** After the priority is written, no line is printed again. */
  lemma ApplyingTheTargetSettles(x: Issue)
    requires MaxPriority(DueDate.Related(x)).Ok?
    ensures Updates(x.(priority := MaxPriority(DueDate.Related(x)).value)) == []
  {
    var y := x.(priority := MaxPriority(DueDate.Related(x)).value);
    assert DueDate.Related(y) == DueDate.Related(x);
  }
}
