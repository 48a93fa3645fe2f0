/**
 * Status roll-up over the issue hierarchy (team/status.py). The children
 * are processed first, recursively; a parent whose children all sit in
 * "To Do" becomes "To Do", one whose children are all "Done" becomes
 * "Done", any other mix makes it "In Progress". A parent whose rolled-up
 * category differs from its own gets one update message and, outside a dry
 * run, a transition to the mapped status when the tracker offers one.
 */
module Status {
  import opened Common

  /** A workflow transition the tracker offers for an issue. */
  datatype Transition = Transition(name: string, id: string)

  /** _get_updated_status. */
  function UpdatedStatus(categories: set<StatusCategory>): (r: StatusCategory)
    ensures r == ToDo <==> categories == {ToDo}
    ensures r == Done <==> categories == {Done}
    ensures r == InProgress <==> categories != {ToDo} && categories != {Done}
  {
    if categories == {ToDo} then ToDo
    else if categories == {Done} then Done
    else InProgress
  }

  /** The status each category is mapped to by _update_status. */
  function StatusName(c: StatusCategory): string
  {
    match c
    case ToDo => "New"
    case InProgress => "In Progress"
    case Done => "Closed"
  }

  /** The reason _update_status gives for each category. */
  function Reason(c: StatusCategory): string
  {
    match c
    case ToDo => "Work on child issues has not started."
    case InProgress => "Work on child issues is on-going."
    case Done => "All child issues have been closed."
  }

  /** The category an issue ends with: its own without children, the roll-up of its children's otherwise. */
  function RolledUp(x: Issue): StatusCategory
    decreases x, 1
  {
    if x.children == [] then x.category else UpdatedStatus(ChildCategories(x, |x.children|))
  }

  /** The set of rolled-up categories of the first n children (_get_children_status_categories). */
  function ChildCategories(x: Issue, n: nat): (r: set<StatusCategory>)
    requires n <= |x.children|
    ensures n > 0 ==> r != {}
    decreases x, 0, n
  {
    if n == 0 then {} else ChildCategories(x, n - 1) + {RolledUp(x.children[n - 1])}
  }

  /** The id of the first offered transition with that name; an empty id counts as none. */
  function TransitionId(offered: seq<Transition>, name: string): (r: Option<string>)
    ensures r.Some? ==>
      r.value != "" &&
      exists j :: (0 <= j < |offered| && offered[j] == Transition(name, r.value) &&
                   forall k :: 0 <= k < j ==> offered[k].name != name)
    ensures r.None? ==>
      forall j :: (0 <= j < |offered| && offered[j].name == name &&
                   (forall k :: 0 <= k < j ==> offered[k].name != name)) ==> offered[j].id == ""
  {
    var i := IndexOfName(offered, name);
    if i < |offered| && offered[i].id != "" then Some(offered[i].id) else None
  }

  /** Position of the first transition with that name, or the length when there is none. */
  function IndexOfName(offered: seq<Transition>, name: string): (i: nat)
    ensures i <= |offered| && (i < |offered| ==> offered[i].name == name)
    ensures forall j :: 0 <= j < i ==> offered[j].name != name
  {
    if offered == [] then 0
    else if offered[0].name == name then 0
    else 1 + IndexOfName(offered[1..], name)
  }

  /** The update line: the key is named only in a dry run. */
  function UpdateMessage(x: Issue, c: StatusCategory, dryRun: bool): Msg
  {
    StatusUpdate(if dryRun then Some(x.key) else None, StatusName(c), Reason(c))
  }

  /** What _update_status sends to the tracker. */
  function TransitionWrites(x: Issue, c: StatusCategory, dryRun: bool, offered: map<Key, seq<Transition>>): seq<Write>
  {
    if dryRun then []
    else
      var id := TransitionId(if x.key in offered then offered[x.key] else [], StatusName(c));
      if id.Some? then [TransitionTo(x.key, id.value)] else []
  }

  /** Whether the issue itself is updated: it has children and its roll-up differs from its category. */
  predicate Changes(x: Issue)
  {
    x.children != [] && RolledUp(x) != x.category
  }

  /** The update lines the processing of x appends: its descendants' first, then its own. */
  function Log(x: Issue, dryRun: bool): seq<Msg>
    decreases x, 1
  {
    ChildrenLog(x, |x.children|, dryRun) + (if Changes(x) then [UpdateMessage(x, RolledUp(x), dryRun)] else [])
  }

  function ChildrenLog(x: Issue, n: nat, dryRun: bool): seq<Msg>
    requires n <= |x.children|
    decreases x, 0, n
  {
    if n == 0 then [] else ChildrenLog(x, n - 1, dryRun) + Log(x.children[n - 1], dryRun)
  }

  /** The transitions the processing of x performs, in the same order. */
  function Transitions(x: Issue, dryRun: bool, offered: map<Key, seq<Transition>>): seq<Write>
    decreases x, 1
  {
    ChildrenTransitions(x, |x.children|, dryRun, offered)
    + (if Changes(x) then TransitionWrites(x, RolledUp(x), dryRun, offered) else [])
  }

  function ChildrenTransitions(x: Issue, n: nat, dryRun: bool, offered: map<Key, seq<Transition>>): seq<Write>
    requires n <= |x.children|
    decreases x, 0, n
  {
    if n == 0 then [] else ChildrenTransitions(x, n - 1, dryRun, offered) + Transitions(x.children[n - 1], dryRun, offered)
  }

  // ---------------------------------------------------------------------
  // The recursive processing, as the source performs it.

  /**
   * set_status_from_children: roll the children up first, then update the
   * issue when its category differs; the result is the category it ends with.
   */
  method SetStatusFromChildren(x: Issue, ctx: Context, dryRun: bool, offered: map<Key, seq<Transition>>)
    returns (category: StatusCategory)
    modifies ctx
    ensures category == RolledUp(x)
    ensures ctx.updates == old(ctx.updates) + Log(x, dryRun)
    ensures ctx.writes == old(ctx.writes) + Transitions(x, dryRun, offered)
    ensures ctx.comments == old(ctx.comments) && ctx.nonCompliant == old(ctx.nonCompliant)
    decreases x, 1
  {
    var categories := GetChildrenStatusCategories(x, ctx, dryRun, offered);
    if categories == {} {
      return x.category;
    }
    category := UpdatedStatus(categories);
    if category != x.category {
      UpdateStatus(x, category, ctx, dryRun, offered);
    }
  }

  /** _get_children_status_categories: every child in turn is processed and its category collected. */
  method GetChildrenStatusCategories(x: Issue, ctx: Context, dryRun: bool, offered: map<Key, seq<Transition>>)
    returns (categories: set<StatusCategory>)
    modifies ctx
    ensures categories == ChildCategories(x, |x.children|)
    ensures ctx.updates == old(ctx.updates) + ChildrenLog(x, |x.children|, dryRun)
    ensures ctx.writes == old(ctx.writes) + ChildrenTransitions(x, |x.children|, dryRun, offered)
    ensures ctx.comments == old(ctx.comments) && ctx.nonCompliant == old(ctx.nonCompliant)
    decreases x, 0
  {
    categories := {};
    for k := 0 to |x.children|
      invariant categories == ChildCategories(x, k)
      invariant ctx.updates == old(ctx.updates) + ChildrenLog(x, k, dryRun)
      invariant ctx.writes == old(ctx.writes) + ChildrenTransitions(x, k, dryRun, offered)
      invariant ctx.comments == old(ctx.comments) && ctx.nonCompliant == old(ctx.nonCompliant)
    {
      var child := x.children[k];
      var c := SetStatusFromChildren(child, ctx, dryRun, offered);
      categories := categories + {c};
    }
  }

  /** _update_status: one update line, and outside a dry run the transition when one is offered. */
  method UpdateStatus(x: Issue, c: StatusCategory, ctx: Context, dryRun: bool, offered: map<Key, seq<Transition>>)
    modifies ctx
    ensures ctx.updates == old(ctx.updates) + [UpdateMessage(x, c, dryRun)]
    ensures ctx.writes == old(ctx.writes) + TransitionWrites(x, c, dryRun, offered)
    ensures ctx.comments == old(ctx.comments) && ctx.nonCompliant == old(ctx.nonCompliant)
  {
    var status := StatusName(c);
    ctx.updates := ctx.updates + [StatusUpdate(if dryRun then Some(x.key) else None, status, Reason(c))];
    if !dryRun {
      var transitions := if x.key in offered then offered[x.key] else [];
      var id := TransitionId(transitions, status);
      if id.Some? {
        ctx.writes := ctx.writes + [TransitionTo(x.key, id.value)];
      }
    }
  }

  // ---------------------------------------------------------------------
  // Properties.

  /** An issue without children keeps its own category and causes no update. */
  lemma LeafIsLeftAlone(x: Issue, dryRun: bool, offered: map<Key, seq<Transition>>)
    requires x.children == []
    ensures RolledUp(x) == x.category
    ensures Log(x, dryRun) == [] && Transitions(x, dryRun, offered) == []
  {
  }

  /** A parent's category is decided by the categories its children end with. */
  lemma ParentFollowsChildren(x: Issue)
    requires x.children != []
    ensures RolledUp(x) == ToDo <==> forall i :: 0 <= i < |x.children| ==> RolledUp(x.children[i]) == ToDo
    ensures RolledUp(x) == Done <==> forall i :: 0 <= i < |x.children| ==> RolledUp(x.children[i]) == Done
  {
    AllChildrenIn(x, |x.children|, ToDo);
    AllChildrenIn(x, |x.children|, Done);
  }

  /** The first n children's categories are exactly {c} when each of them ends in c. */
  lemma {:induction false} AllChildrenIn(x: Issue, n: nat, c: StatusCategory)
    requires 0 < n <= |x.children|
    ensures ChildCategories(x, n) == {c} <==> forall i :: 0 <= i < n ==> RolledUp(x.children[i]) == c
  {
    if n > 1 {
      AllChildrenIn(x, n - 1, c);
      var s, r := ChildCategories(x, n - 1), RolledUp(x.children[n - 1]);
      assert ChildCategories(x, n) == s + {r};
      if s + {r} == {c} {
        assert r == c && s == {c};
      }
    }
  }

  lemma {:induction false} ChildCategoriesMembers(x: Issue, n: nat)
    requires n <= |x.children|
    ensures forall c :: c in ChildCategories(x, n) <==> exists i :: 0 <= i < n && RolledUp(x.children[i]) == c
  {
    if n > 0 {
      ChildCategoriesMembers(x, n - 1);
    }
  }

  /**
   * The issue's own update is the last line its processing appends, and
   * there is one exactly when it has children and its roll-up differs.
   */
  lemma OwnUpdateIsLast(x: Issue, dryRun: bool)
    ensures Changes(x) <==> |Log(x, dryRun)| > |ChildrenLog(x, |x.children|, dryRun)|
    ensures Changes(x) ==> Log(x, dryRun)[|Log(x, dryRun)| - 1] == UpdateMessage(x, RolledUp(x), dryRun)
  {
  }

  /** Outside a dry run the update line does not name the issue; in a dry run it does. */
  lemma KeyOnlyInDryRun(x: Issue, c: StatusCategory, dryRun: bool)
    ensures UpdateMessage(x, c, dryRun).statusKey.Some? <==> dryRun
    ensures UpdateMessage(x, c, dryRun).status in {"New", "In Progress", "Closed"}
  {
  }

  /** Without an offered transition of the mapped name (or in a dry run) nothing is sent. */
  lemma NoTransitionWithoutOffer(x: Issue, c: StatusCategory, dryRun: bool, offered: map<Key, seq<Transition>>)
    requires dryRun || x.key !in offered || forall j :: 0 <= j < |offered[x.key]| ==> offered[x.key][j].name != StatusName(c)
    ensures TransitionWrites(x, c, dryRun, offered) == []
  {
  }

  /** A tree whose every parent already shows its children's roll-up. */
  ghost predicate Settled(x: Issue)
    decreases x
  {
    (x.children == [] || RolledUp(x) == x.category)
    && forall i :: 0 <= i < |x.children| ==> Settled(x.children[i])
  }

  /** Processing a settled tree changes nothing: the roll-up is idempotent. */
  lemma {:induction false} SettledTreeIsLeftAlone(x: Issue, dryRun: bool, offered: map<Key, seq<Transition>>)
    requires Settled(x)
    ensures Log(x, dryRun) == [] && Transitions(x, dryRun, offered) == []
    decreases x, 1
  {
    SettledChildrenAreLeftAlone(x, |x.children|, dryRun, offered);
  }

  lemma {:induction false} SettledChildrenAreLeftAlone(x: Issue, n: nat, dryRun: bool, offered: map<Key, seq<Transition>>)
    requires Settled(x) && n <= |x.children|
    ensures ChildrenLog(x, n, dryRun) == [] && ChildrenTransitions(x, n, dryRun, offered) == []
    decreases x, 0, n
  {
    if n > 0 {
      SettledChildrenAreLeftAlone(x, n - 1, dryRun, offered);
      SettledTreeIsLeftAlone(x.children[n - 1], dryRun, offered);
    }
  }
}
