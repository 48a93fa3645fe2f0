/**
 * Shared vocabulary of the backlog-hygiene model: the issue snapshot, the
 * messages the rules produce, the writes they send to the tracker and the
 * per-issue context the rules fill in.
 */
module Common {

  datatype Option<+T> = None | Some(value: T)

  datatype Result<+T, +E> = Ok(value: T) | Err(error: E)

  type Key = string

  /**
   * A calendar day written as the integer YYYYMMDD. The source compares
   * ISO "YYYY-MM-DD" strings; on well-formed dates their order is the
   * order of these integers.
   */
  type Date = nat

  /** The "9999-99-99" sentinel used when an issue has no due date. */
  const NoDueDate: Date := 99999999

  datatype StatusCategory = ToDo | InProgress | Done

  datatype FixVersion = FixVersion(name: string, releaseDate: Option<Date>)

  /**
   * One issue as fetched from the tracker, with its related issues
   * (parent, the issues it blocks through "Blocks" links, children) already attached.
   */
  datatype Issue = Issue(
    key: Key,
    project: string,
    issueType: string,
    status: string,
    category: StatusCategory,
    priority: string,
    rank: int,
    dueDate: Option<Date>,
    targetStart: Option<Date>,
    targetEnd: Option<Date>,
    rice: Option<real>,
    components: seq<string>,
    labels: seq<string>,
    fixVersions: seq<FixVersion>,
    parent: Option<Issue>,
    blocks: seq<Issue>,
    children: seq<Issue>)

  /**
   * The sort key the due-date orderings use: the due date, or the
   * "9999-99-99" sentinel when it is missing.
   */
  function DueDateKey(issue: Issue): real
  {
    (if issue.dueDate.Some? then issue.dueDate.value else NoDueDate) as real
  }

  /** Which rule printed an "Ignoring ..." notice. */
  datatype RuleName = DueDateRule | DueDateByFixVersionRule | ParentLinkRule

  /** The messages the rules append to the update and comment lists. */
  datatype Msg =
    | Ignoring(ignoredKey: Key, rule: RuleName, expr: string)
    | DueDateUpdate(newDue: Option<Date>, dueSource: Option<Key>)
    | LegacyDueDateUpdate(newDue: Option<Date>)
    | TargetExceedsDueDate
    | DueDateSet(setDue: Date, setFrom: string)
    | DueDatePulledIn(pulledFrom: Date, pulledTo: Date, pulledVersion: string)
    | TargetEndUnderEstimated(newEnd: Option<Date>, estimated: nat, total: nat)
    | TargetEndPropagated(newEnd: Option<Date>, endSource: Option<Key>)
    | AddingComponents(names: set<string>)
    | RemovingComponents(names: set<string>)
    | PrioritySet(newPriority: string, oldPriority: string)
    | AddingLabel(labelName: string)
    | RemovingLabel(labelName: string)
    | RemovingFixVersion(versionName: string)
    | AddingFixVersion(versionName: string)
    | TargetStartObsolete
    | TargetStartUnset
    | TargetEndObsolete
    | TargetEndUnset
    | MissingParentLink
    | NowCompliant
    | StatusUpdate(statusKey: Option<Key>, status: string, reason: string)
    | PriorityFromRank(issueKey: Key, oldPriority: string, newPriority: string, position: nat, total: nat)
    | PriorityNoComponents(issueKey: Key, oldPriority: string)
    | PriorityFromComponentRank(issueKey: Key, oldPriority: string, newPriority: string, leader: Assessment, others: seq<Assessment>)

  /** The position of an issue inside one component backlog. */
  datatype Assessment = Assessment(component: string, index: nat, total: nat)

  /** The calls the rules make on the tracker client. */
  datatype Write =
    | SetDueDate(key: Key, due: Option<Date>)
    | SetTargetEnd(key: Key, end: Option<Date>)
    | SetPriority(key: Key, priority: string)
    | SetLabels(key: Key, labels: seq<string>)
    | SetComponents(key: Key, names: seq<string>)
    | SetFixVersions(key: Key, names: seq<string>)
    | TransitionTo(key: Key, transitionId: string)
    | RankAfter(key: Key, after: Key)
    | AddComment(key: Key, body: Msg, footer: string)

  /**
   * The per-issue context dictionary the rules share: the update lines
   * printed at the end, the comment lines posted on the issue, the
   * non-compliance flag, and the log of tracker writes.
   */
  class Context {
    var updates: seq<Msg>
    var comments: seq<Msg>
    var nonCompliant: bool
    var writes: seq<Write>

    constructor ()
      ensures updates == [] && comments == [] && !nonCompliant && writes == []
    {
      updates, comments, nonCompliant, writes := [], [], false, [];
    }
  }

  ghost predicate Distinct<T>(s: seq<T>)
  {
    forall i, j :: 0 <= i < j < |s| ==> s[i] != s[j]
  }

  /** Position of the first occurrence of x in s (Python's list.index). */
  function IndexOf<T(==)>(s: seq<T>, x: T): (i: nat)
    requires x in s
    ensures i < |s| && s[i] == x && x !in s[..i]
  {
    if s[0] == x then 0 else 1 + IndexOf(s[1..], x)
  }

  /** In a sequence without repetitions, the first occurrence is the only one. */
  lemma IndexOfDistinct<T>(s: seq<T>, i: nat)
    requires Distinct(s) && i < |s|
    ensures IndexOf(s, s[i]) == i
  {
  }

  /** The elements of s that satisfy p, in order. */
  function Filter<T>(s: seq<T>, p: T -> bool): (r: seq<T>)
    ensures |r| <= |s|
    ensures forall x :: x in r ==> x in s && p(x)
  {
    if s == [] then [] else Filter(s[..|s| - 1], p) + (if p(s[|s| - 1]) then [s[|s| - 1]] else [])
  }

  /** One more element visited: the filtered prefix grows by it when it satisfies p. */
  lemma FilterStep<T>(s: seq<T>, p: T -> bool, k: nat)
    requires k < |s|
    ensures Filter(s[..k + 1], p) == Filter(s[..k], p) + (if p(s[k]) then [s[k]] else [])
  {
    assert s[..k + 1][..k] == s[..k];
  }

  /** An element is kept exactly when it is in s and satisfies p. */
  lemma {:induction false} FilterMembers<T>(s: seq<T>, p: T -> bool, x: T)
    ensures x in Filter(s, p) <==> x in s && p(x)
  {
    if s != [] {
      FilterMembers(s[..|s| - 1], p, x);
      assert s == s[..|s| - 1] + [s[|s| - 1]];
    }
  }

  lemma {:induction false} FilterAppend<T>(a: seq<T>, b: seq<T>, p: T -> bool)
    ensures Filter(a + b, p) == Filter(a, p) + Filter(b, p)
    decreases |b|
  {
    if b == [] {
      assert a + b == a;
    } else {
      assert (a + b)[..|a + b| - 1] == a + b[..|b| - 1];
      FilterAppend(a, b[..|b| - 1], p);
    }
  }

  lemma {:induction false} FilterAll<T>(s: seq<T>, p: T -> bool)
    requires forall x :: x in s ==> p(x)
    ensures Filter(s, p) == s
  {
    if s != [] {
      assert s == s[..|s| - 1] + [s[|s| - 1]];
      FilterAll(s[..|s| - 1], p);
    }
  }

  lemma {:induction false} FilterNone<T>(s: seq<T>, p: T -> bool)
    requires forall x :: x in s ==> !p(x)
    ensures Filter(s, p) == []
  {
    if s != [] {
      FilterNone(s[..|s| - 1], p);
    }
  }

  /** Splitting by p and by its complement q loses and duplicates nothing. */
  lemma {:induction false} FilterSplitPermutation<T>(s: seq<T>, p: T -> bool, q: T -> bool)
    requires forall x :: q(x) == !p(x)
    ensures multiset(Filter(s, p)) + multiset(Filter(s, q)) == multiset(s)
  {
    if s != [] {
      var t, x := s[..|s| - 1], s[|s| - 1];
      FilterSplitPermutation(t, p, q);
      assert s == t + [x];
      FilterSplitStep(t, x, p, q);
    }
  }

  lemma FilterSplitStep<T>(t: seq<T>, x: T, p: T -> bool, q: T -> bool)
    requires forall y :: q(y) == !p(y)
    requires multiset(Filter(t, p)) + multiset(Filter(t, q)) == multiset(t)
    ensures multiset(Filter(t + [x], p)) + multiset(Filter(t + [x], q)) == multiset(t + [x])
  {
    assert (t + [x])[..|t|] == t;
  }

  /** Filtering a one-element list. */
  lemma FilterSingleton<T>(x: T, p: T -> bool)
    ensures Filter([x], p) == if p(x) then [x] else []
  {
    assert [x][..0] == [];
  }

  /** Python's list.remove: drop the first occurrence of x (nothing when absent). */
  function RemoveFirst<T(==)>(s: seq<T>, x: T): (r: seq<T>)
    ensures |r| <= |s|
  {
    if s == [] then [] else if s[0] == x then s[1..] else [s[0]] + RemoveFirst(s[1..], x)
  }

  /** When x does not occur in a, its first occurrence in a + b is the head of b. */
  lemma {:induction false} RemoveFirstAfter<T>(a: seq<T>, b: seq<T>, x: T)
    requires x !in a && b != [] && b[0] == x
    ensures RemoveFirst(a + b, x) == a + b[1..]
    decreases |a|
  {
    if a == [] {
      assert a + b == b;
    } else {
      assert (a + b)[0] == a[0] && (a + b)[1..] == a[1..] + b;
      RemoveFirstAfter(a[1..], b, x);
      assert a == [a[0]] + a[1..];
    }
  }

  /** list.remove takes out exactly one copy of x when there is one, and nothing otherwise. */
  lemma {:induction false} RemoveFirstMultiset<T>(s: seq<T>, x: T)
    ensures multiset(RemoveFirst(s, x)) == multiset(s) - multiset{x}
  {
    if s != [] {
      assert s == [s[0]] + s[1..];
      if s[0] != x {
        RemoveFirstMultiset(s[1..], x);
      }
    }
  }

  /** Taking out the element at i leaves the rest, with one copy of s[i] fewer. */
  lemma RemoveAt<T>(s: seq<T>, i: nat)
    requires i < |s|
    ensures s == s[..i] + [s[i]] + s[i + 1..]
    ensures multiset(s) == multiset(s[..i] + s[i + 1..]) + multiset{s[i]}
  {
    assert s == s[..i] + [s[i]] + s[i + 1..];
  }

  lemma MultisetCancel<T>(a: multiset<T>, b: multiset<T>, x: T)
    requires a + multiset{x} == b + multiset{x}
    ensures a == b
  {
    forall y ensures a[y] == b[y] {
      assert (a + multiset{x})[y] == (b + multiset{x})[y];
    }
  }

  /** A permutation of a sequence without repetitions has none either. */
  lemma DistinctPermutation<T>(a: seq<T>, b: seq<T>)
    requires Distinct(a) && multiset(a) == multiset(b)
    ensures Distinct(b)
  {
    forall i, j | 0 <= i < j < |b| ensures b[i] != b[j] {
      if b[i] == b[j] {
        assert b == b[..i] + [b[i]] + b[i + 1..];
        assert b[i + 1..] == b[i + 1..j] + [b[j]] + b[j + 1..];
        assert multiset(b)[b[i]] >= 2;
        CountAtMostOne(a, b[i]);
      }
    }
  }

  lemma {:induction false} CountAtMostOne<T>(a: seq<T>, x: T)
    requires Distinct(a)
    ensures multiset(a)[x] <= 1
  {
    if a != [] {
      var t := a[..|a| - 1];
      assert a == t + [a[|a| - 1]];
      CountAtMostOne(t, x);
      if a[|a| - 1] == x {
        assert x !in t;
      }
    }
  }
}
