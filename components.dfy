/**
 * Component reconciliation (program/components.py): a parent's components
 * become the set of its children's components. Names missing from the
 * parent are reported as added, names no child has as removed, and a live
 * run writes the children's names in sorted order.
 */
module Components {
  import opened Common

  // ---------------------------------------------------------------------
  // Sorting names as Python sorts strings: by code point, lexicographically.

  predicate LexLess(a: string, b: string)
    decreases |a|
  {
    if a == [] then b != []
    else if b == [] then false
    else if a[0] != b[0] then a[0] < b[0]
    else LexLess(a[1..], b[1..])
  }

  lemma {:induction false} LexIrreflexive(a: string)
    ensures !LexLess(a, a)
    decreases |a|
  {
    if a != [] {
      LexIrreflexive(a[1..]);
    }
  }

  lemma {:induction false} LexTransitive(a: string, b: string, c: string)
    requires LexLess(a, b) && LexLess(b, c)
    ensures LexLess(a, c)
    decreases |a|
  {
    if a != [] && b != [] && c != [] && a[0] == b[0] && b[0] == c[0] {
      LexTransitive(a[1..], b[1..], c[1..]);
    }
  }

  lemma {:induction false} LexTotal(a: string, b: string)
    requires a != b
    ensures LexLess(a, b) || LexLess(b, a)
    decreases |a|
  {
    if a != [] && b != [] && a[0] == b[0] {
      assert a == [a[0]] + a[1..] && b == [b[0]] + b[1..];
      LexTotal(a[1..], b[1..]);
    }
  }

  lemma LexAsymmetric(a: string, b: string)
    requires LexLess(a, b)
    ensures !LexLess(b, a)
  {
    if LexLess(b, a) {
      LexTransitive(a, b, a);
      LexIrreflexive(a);
    }
  }

  /** Strictly ascending, hence without repetitions. */
  ghost predicate StrictlySorted(s: seq<string>)
  {
    forall i, j :: 0 <= i < j < |s| ==> LexLess(s[i], s[j])
  }

  /** Insert a name into a sorted list, unless it is already there. */
  function Insert(s: seq<string>, x: string): seq<string>
    decreases |s|
  {
    if s == [] then [x]
    else if x == s[0] then s
    else if LexLess(x, s[0]) then [x] + s
    else [s[0]] + Insert(s[1..], x)
  }

  /** The sorted list of the distinct names of s. */
  function SortNames(s: seq<string>): seq<string>
    decreases |s|
  {
    if s == [] then [] else Insert(SortNames(s[..|s| - 1]), s[|s| - 1])
  }

  lemma {:induction false} InsertFacts(s: seq<string>, x: string)
    requires StrictlySorted(s)
    ensures StrictlySorted(Insert(s, x))
    ensures forall y :: y in Insert(s, x) <==> y in s || y == x
    decreases |s|
  {
    if s != [] && x != s[0] && !LexLess(x, s[0]) {
      LexTotal(x, s[0]);
      var t := Insert(s[1..], x);
      InsertFacts(s[1..], x);
      forall j | 0 <= j < |t|
        ensures LexLess(s[0], t[j])
      {
        assert t[j] in t;
        if t[j] != x {
          assert t[j] in s[1..];
        }
      }
    } else if s != [] && x != s[0] {
      forall j | 0 < j < |s|
        ensures LexLess(x, s[j])
      {
        LexTransitive(x, s[0], s[j]);
      }
    }
  }

  /** The sorted list is strictly ascending and holds exactly the names of s. */
  lemma {:induction false} SortNamesFacts(s: seq<string>)
    ensures StrictlySorted(SortNames(s))
    ensures forall y :: y in SortNames(s) <==> y in s
    decreases |s|
  {
    if s != [] {
      var t := s[..|s| - 1];
      SortNamesFacts(t);
      InsertFacts(SortNames(t), s[|s| - 1]);
      assert s == t + [s[|s| - 1]];
    }
  }

  /** Two strictly ascending lists with the same names are equal: the written list depends only on the name set. */
  lemma {:induction false} SortedIsUnique(a: seq<string>, b: seq<string>)
    requires StrictlySorted(a) && StrictlySorted(b)
    requires forall y :: y in a <==> y in b
    ensures a == b
    decreases |a|
  {
    if a != [] {
      assert a[0] in a;
    }
    if b != [] {
      assert b[0] in b;
    }
    if a != [] && b != [] {
      assert a[0] in b && b[0] in a;
      if a[0] != b[0] {
        var i :| 0 <= i < |b| && b[i] == a[0];
        var j :| 0 <= j < |a| && a[j] == b[0];
        assert LexLess(b[0], a[0]) && LexLess(a[0], b[0]);
        LexAsymmetric(a[0], b[0]);
      }
      forall y
        ensures y in a[1..] <==> y in b[1..]
      {
        LexIrreflexive(a[0]);
        if y in a[1..] {
          var i :| 0 < i < |a| && a[i] == y;
          assert y in a && y in b;
          var k :| 0 <= k < |b| && b[k] == y;
          assert k != 0 && b[1..][k - 1] == y;
        }
        if y in b[1..] {
          var i :| 0 < i < |b| && b[i] == y;
          assert y in b && y in a;
          var k :| 0 <= k < |a| && a[k] == y;
          assert k != 0 && a[1..][k - 1] == y;
        }
      }
      SortedIsUnique(a[1..], b[1..]);
    }
  }

  // ---------------------------------------------------------------------
  // The rule.

  /** The children's component names, concatenated in child order. */
  function ChildNames(children: seq<Issue>): (r: seq<string>)
    ensures forall y :: y in r <==> exists i :: 0 <= i < |children| && y in children[i].components
    decreases |children|
  {
    if children == [] then []
    else
      var t := children[..|children| - 1];
      var r := ChildNames(t) + children[|children| - 1].components;
      assert forall i :: 0 <= i < |t| ==> t[i] == children[i];
      r
  }

  function ToAdd(x: Issue): set<string>
  {
    (set y | y in ChildNames(x.children)) - (set y | y in x.components)
  }

  function ToRemove(x: Issue): set<string>
  {
    (set y | y in x.components) - (set y | y in ChildNames(x.children))
  }

  function Updates(x: Issue): seq<Msg>
  {
    (if ToAdd(x) != {} then [AddingComponents(ToAdd(x))] else [])
    + (if ToRemove(x) != {} then [RemovingComponents(ToRemove(x))] else [])
  }

  function Writes(x: Issue, dryRun: bool): seq<Write>
  {
    if !dryRun && (ToAdd(x) != {} || ToRemove(x) != {}) then [SetComponents(x.key, SortNames(ChildNames(x.children)))]
    else []
  }

  /** check_components. */
  method CheckComponents(x: Issue, ctx: Context, dryRun: bool)
    modifies ctx
    ensures ctx.updates == old(ctx.updates) + Updates(x)
    ensures ctx.writes == old(ctx.writes) + Writes(x, dryRun)
    ensures ctx.comments == old(ctx.comments) && ctx.nonCompliant == old(ctx.nonCompliant)
  {
    var childComponents := SortNames(ChildNames(x.children));
    var components := SortNames(x.components);
    SortNamesFacts(ChildNames(x.children));
    SortNamesFacts(x.components);
    var toAdd := (set y | y in childComponents) - (set y | y in components);
    var toRemove := (set y | y in components) - (set y | y in childComponents);
    assert toAdd == ToAdd(x) && toRemove == ToRemove(x);
    if toAdd != {} {
      ctx.updates := ctx.updates + [AddingComponents(toAdd)];
    }
    if toRemove != {} {
      ctx.updates := ctx.updates + [RemovingComponents(toRemove)];
    }
    if !dryRun && (toAdd != {} || toRemove != {}) {
      ctx.writes := ctx.writes + [SetComponents(x.key, childComponents)];
    }
  }

  // ---------------------------------------------------------------------
  // Properties.

  /** Names are added when some child has them and the issue does not, removed when the issue has them and no child does. */
  lemma DifferencesAreMembership(x: Issue, y: string)
    ensures y in ToAdd(x) <==> (exists i :: 0 <= i < |x.children| && y in x.children[i].components) && y !in x.components
    ensures y in ToRemove(x) <==> y in x.components && !exists i :: 0 <= i < |x.children| && y in x.children[i].components
  {
  }

  /** Nothing is reported or written exactly when the issue already has its children's names. */
  lemma NothingToDoIffSameNames(x: Issue, dryRun: bool)
    ensures Updates(x) == [] <==> (set y | y in x.components) == (set y | y in ChildNames(x.children))
    ensures Updates(x) == [] ==> Writes(x, dryRun) == []
    ensures Writes(x, dryRun) != [] <==> !dryRun && Updates(x) != []
  {
  }

  /** The list written holds each of the children's names once, in ascending order. */
  lemma WrittenListIsSortedChildNames(x: Issue, dryRun: bool)
    requires Writes(x, dryRun) != []
    ensures Writes(x, dryRun)[0].SetComponents?
    ensures var names := Writes(x, dryRun)[0].names;
      StrictlySorted(names)
      && forall y :: y in names <==> exists i :: 0 <= i < |x.children| && y in x.children[i].components
  {
    SortNamesFacts(ChildNames(x.children));
  }

  /** Once the children's names are written, the rule has nothing more to do. */
  lemma ApplyingTheNamesSettles(x: Issue, dryRun: bool)
    ensures var y := x.(components := SortNames(ChildNames(x.children)));
      Updates(y) == [] && Writes(y, dryRun) == []
  {
    var y := x.(components := SortNames(ChildNames(x.children)));
    SortNamesFacts(ChildNames(x.children));
    assert ChildNames(y.children) == ChildNames(x.children);
    NothingToDoIffSameNames(y, dryRun);
  }

  /** Any ascending list of exactly the children's names is the one written: the write depends only on the name set. */
  lemma WrittenListIsDetermined(x: Issue, names: seq<string>)
    requires StrictlySorted(names)
    requires forall y :: y in names <==> exists i :: 0 <= i < |x.children| && y in x.children[i].components
    ensures names == SortNames(ChildNames(x.children))
  {
    SortNamesFacts(ChildNames(x.children));
    SortedIsUnique(names, SortNames(ChildNames(x.children)));
  }
}
