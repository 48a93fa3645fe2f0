/**
 * The move emitter shared by the three block-based re-ranking variants
 * (`_set_rank` in team/rank.py, team/timesensitive_rank.py and
 * team/fixversion_rank.py, which are the same loop): walk the new ranking,
 * and from the first position where it differs from the old ranking on,
 * rank every issue directly after its predecessor in the new ranking.
 */
module MoveEmitter {
  import opened Common

  function Keys(s: seq<Issue>): (r: seq<Key>)
    ensures |r| == |s|
    ensures forall i :: 0 <= i < |s| ==> r[i] == s[i].key
  {
    seq(|s|, i requires 0 <= i < |s| => s[i].key)
  }

  /** The first index at which the new ranking differs from the old one, |new| if none. */
  function FirstDivergence(was: seq<Issue>, now: seq<Issue>): (d: nat)
    requires |now| <= |was|
    ensures d <= |now|
    ensures forall i :: 0 <= i < d ==> now[i] == was[i]
    ensures d < |now| ==> now[d] != was[d]
  {
    if now == [] then 0
    else if now[0] != was[0] then 0
    else 1 + FirstDivergence(was[1..], now[1..])
  }

  /** The first index that gets a move: index 0 never has a predecessor. */
  function FirstMoved(was: seq<Issue>, now: seq<Issue>): nat
    requires |now| <= |was|
  {
    var d := FirstDivergence(was, now);
    if d == 0 then 1 else d
  }

  /** The moves "new[i] directly after new[i-1]" for from <= i < to. */
  function MovesBetween(now: seq<Issue>, from: nat, to: nat): (r: seq<Write>)
    requires 1 <= from <= to <= |now|
    ensures |r| == to - from
    ensures forall k :: 0 <= k < |r| ==> r[k] == RankAfter(now[from + k].key, now[from + k - 1].key)
  {
    seq(to - from, k requires 0 <= k < to - from => RankAfter(now[from + k].key, now[from + k - 1].key))
  }

  /** Every move the emitter issues to go from the old ranking to the new one. */
  function Moves(was: seq<Issue>, now: seq<Issue>): seq<Write>
    requires |now| <= |was|
  {
    var from := FirstMoved(was, now);
    if |now| <= from then [] else MovesBetween(now, from, |now|)
  }

  /** The keys a dry run lists instead of ranking them. */
  function MovedKeys(was: seq<Issue>, now: seq<Issue>): (r: seq<Key>)
    requires |now| <= |was|
  {
    var from := FirstMoved(was, now);
    if |now| <= from then [] else Keys(now[from..])
  }

  /**
   * `_set_rank`: in a live run the moves are sent as rank calls, in a dry
   * run the same issues are only listed.
   */
  method SetRank(oldRanking: seq<Issue>, newRanking: seq<Issue>, dryRun: bool)
    returns (ranked: seq<Write>, listed: seq<Key>)
    requires |newRanking| <= |oldRanking|
    ensures ranked == (if dryRun then [] else Moves(oldRanking, newRanking))
    ensures listed == (if dryRun then MovedKeys(oldRanking, newRanking) else [])
  {
    ghost var from := FirstMoved(oldRanking, newRanking);
    ghost var d := FirstDivergence(oldRanking, newRanking);
    var previous: Option<Issue> := None;
    var rerank := false;
    ranked, listed := [], [];
    for index := 0 to |newRanking|
      invariant rerank <==> d < index
      invariant previous == (if index == 0 then None else Some(newRanking[index - 1]))
      invariant index <= from ==> ranked == [] && listed == []
      invariant from < index && !dryRun ==> ranked == MovesBetween(newRanking, from, index) && listed == []
      invariant from < index && dryRun ==> ranked == [] && listed == Keys(newRanking[from..index])
    {
      var issue := newRanking[index];
      if issue != oldRanking[index] {
        rerank := true;
      }
      if rerank && previous.Some? {
        if dryRun {
          listed := listed + [issue.key];
        } else {
          ranked := ranked + [RankAfter(issue.key, previous.value.key)];
        }
      }
      previous := Some(issue);
    }
  }

  lemma KeysAppend(a: seq<Issue>, b: seq<Issue>)
    ensures Keys(a + b) == Keys(a) + Keys(b)
  {
  }

  /** Reordering the issues reorders their keys. */
  lemma {:induction false} KeysPermutation(a: seq<Issue>, b: seq<Issue>)
    requires multiset(a) == multiset(b)
    ensures multiset(Keys(a)) == multiset(Keys(b))
    decreases |a|
  {
    if a != [] {
      var t, x := a[..|a| - 1], a[|a| - 1];
      assert a == t + [x];
      assert x in multiset(b);
      var i := IndexOf(b, x);
      var u, v := b[..i], b[i + 1..];
      RemoveAt(b, i);
      MultisetCancel(multiset(t), multiset(u + v), x);
      KeysPermutation(t, u + v);
      KeysAppend(t, [x]);
      KeysAppend(u, v);
      KeysAppend(u + [x], v);
      KeysAppend(u, [x]);
    }
  }

  /** An unchanged ranking produces no move at all. */
  lemma UnchangedRankingHasNoMoves(ranking: seq<Issue>)
    ensures Moves(ranking, ranking) == []
    ensures MovedKeys(ranking, ranking) == []
  {
    assert FirstDivergence(ranking, ranking) == |ranking|;
  }

  /** A dry run lists exactly the issues a live run would move, in the same order. */
  lemma DryRunListsMovedIssues(was: seq<Issue>, now: seq<Issue>)
    requires |now| <= |was|
    ensures |MovedKeys(was, now)| == |Moves(was, now)|
    ensures forall k :: 0 <= k < |Moves(was, now)| ==> Moves(was, now)[k].key == MovedKeys(was, now)[k]
  {
  }

  // ---------------------------------------------------------------------
  // Applying the moves to the old ranking realizes the new ranking.

  /** Rank `x` directly after `after` in `order`; no effect if either is missing. */
  function RankAfterIn(order: seq<Key>, x: Key, after: Key): seq<Key>
  {
    if x !in order || x == after then order
    else
      var i := IndexOf(order, x);
      var rest := order[..i] + order[i + 1..];
      if after !in rest then order
      else
        var j := IndexOf(rest, after);
        rest[..j + 1] + [x] + rest[j + 1..]
  }

  function ApplyMoves(order: seq<Key>, moves: seq<Write>): seq<Key>
    decreases |moves|
  {
    if moves == [] then order
    else if moves[|moves| - 1].RankAfter? then
      var m := moves[|moves| - 1];
      RankAfterIn(ApplyMoves(order, moves[..|moves| - 1]), m.key, m.after)
    else ApplyMoves(order, moves[..|moves| - 1])
  }

  /** In a sequence without repetitions, moving s[i] directly after rest[j] is a plain insertion. */
  lemma RankAfterInAt(s: seq<Key>, i: nat, j: nat)
    requires Distinct(s) && i < |s| && j < |s| - 1
    ensures RankAfterIn(s, s[i], (s[..i] + s[i + 1..])[j])
         == (s[..i] + s[i + 1..])[..j + 1] + [s[i]] + (s[..i] + s[i + 1..])[j + 1..]
  {
    var rest := s[..i] + s[i + 1..];
    IndexOfDistinct(s, i);
    DistinctRemove(s, i);
    assert s[i] != rest[j] by {
      var j' := if j < i then j else j + 1;
      assert rest[j] == s[j'];
    }
    IndexOfDistinct(rest, j);
  }

  lemma NotInMiddle<T>(p: seq<T>, b: seq<T>, q: seq<T>, x: T)
    requires Distinct(p + b + q) && x in p + q
    ensures x !in b
  {
    var s := p + b + q;
    forall m | 0 <= m < |b| ensures b[m] != x {
      if x in p {
        var t := IndexOf(p, x);
        assert s[t] == p[t] && s[|p| + m] == b[m];
      } else {
        var t := IndexOf(q, x);
        assert s[|p| + |b| + t] == q[t] && s[|p| + m] == b[m];
      }
    }
  }

  /** Taking x out of P + B + Q leaves P' + B + Q' with x taken from P or from Q. */
  lemma RemoveOutsideBlock(p: seq<Key>, b: seq<Key>, q: seq<Key>, i: nat) returns (p': seq<Key>, q': seq<Key>)
    requires i < |p + b + q| && (p + b + q)[i] !in b
    ensures (p + b + q)[..i] + (p + b + q)[i + 1..] == p' + b + q'
    ensures multiset(p' + q') + multiset{(p + b + q)[i]} == multiset(p + q)
  {
    if i < |p| {
      p', q' := RemoveFromFront(p, b, q, i);
    } else {
      p', q' := RemoveFromBack(p, b, q, i - |p| - |b|);
    }
  }

  lemma RemoveFromFront(p: seq<Key>, b: seq<Key>, q: seq<Key>, i: nat) returns (p': seq<Key>, q': seq<Key>)
    requires i < |p|
    ensures (p + b + q)[..i] + (p + b + q)[i + 1..] == p' + b + q'
    ensures multiset(p' + q') + multiset{p[i]} == multiset(p + q)
  {
    var s := p + b + q;
    p', q' := p[..i] + p[i + 1..], q;
    assert s[..i] == p[..i];
    assert s[i + 1..] == p[i + 1..] + b + q;
    assert p == p[..i] + [p[i]] + p[i + 1..];
  }

  lemma RemoveFromBack(p: seq<Key>, b: seq<Key>, q: seq<Key>, k: nat) returns (p': seq<Key>, q': seq<Key>)
    requires k < |q|
    ensures var i := |p| + |b| + k; (p + b + q)[..i] + (p + b + q)[i + 1..] == p' + b + q'
    ensures multiset(p' + q') + multiset{q[k]} == multiset(p + q)
  {
    var s, i := p + b + q, |p| + |b| + k;
    p', q' := p, q[..k] + q[k + 1..];
    assert s[..i] == p + b + q[..k];
    assert s[i + 1..] == q[k + 1..];
    assert q == q[..k] + [q[k]] + q[k + 1..];
  }

  /**
   * One move step on an order of the form P + B + Q, where B ends with
   * `after` and x sits in P or Q: x leaves its place and joins the end of B.
   */
  lemma RankAfterExtendsBlock(p: seq<Key>, b: seq<Key>, q: seq<Key>, x: Key) returns (p': seq<Key>, q': seq<Key>)
    requires Distinct(p + b + q) && b != [] && x in p + q
    ensures RankAfterIn(p + b + q, x, b[|b| - 1]) == p' + (b + [x]) + q'
    ensures multiset(p' + q') + multiset{x} == multiset(p + q)
    ensures Distinct(p' + (b + [x]) + q')
  {
    var s := p + b + q;
    NotInMiddle(p, b, q, x);
    var i := IndexOf(s, x);
    p', q' := RemoveOutsideBlock(p, b, q, i);
    var rest := p' + b + q';
    var j := |p'| + |b| - 1;
    RankAfterInAt(s, i, j);
    assert rest[j] == b[|b| - 1];
    assert rest[..j + 1] == p' + b;
    assert rest[j + 1..] == q';
    DistinctRemove(s, i);
    DistinctInsert(p' + b, q', x);
  }

  lemma DistinctRemove<T>(s: seq<T>, i: nat)
    requires Distinct(s) && i < |s|
    ensures Distinct(s[..i] + s[i + 1..])
    ensures multiset(s[..i] + s[i + 1..]) + multiset{s[i]} == multiset(s)
  {
    var r := s[..i] + s[i + 1..];
    forall a, c | 0 <= a < c < |r| ensures r[a] != r[c] {
      var a' := if a < i then a else a + 1;
      var c' := if c < i then c else c + 1;
      assert r[a] == s[a'] && r[c] == s[c'];
    }
    assert s == s[..i] + [s[i]] + s[i + 1..];
  }

  lemma DistinctInsert<T>(u: seq<T>, v: seq<T>, x: T)
    requires Distinct(u + v) && x !in u + v
    ensures Distinct(u + [x] + v)
  {
    var r := u + [x] + v;
    forall a, c | 0 <= a < c < |r| ensures r[a] != r[c] {
      if a != |u| && c != |u| {
        var a' := if a < |u| then a else a - 1;
        var c' := if c < |u| then c else c - 1;
        assert r[a] == (u + v)[a'] && r[c] == (u + v)[c'];
      } else if a == |u| {
        assert r[c] in u + v;
      } else {
        assert r[a] in u + v;
      }
    }
  }

  /**
   * Ranking each issue from the first moved index on directly after its
   * predecessor turns the old order into the new one, whenever the new
   * ranking is a permutation of the old one with no key repeated.
   */
  lemma MovesRealizeNewRanking(was: seq<Issue>, now: seq<Issue>)
    requires |now| == |was|
    requires multiset(Keys(was)) == multiset(Keys(now))
    requires Distinct(Keys(now))
    ensures ApplyMoves(Keys(was), Moves(was, now)) == Keys(now)
  {
    var from := FirstMoved(was, now);
    if |now| <= from {
      NothingToMove(was, now);
    } else {
      var p, q := InitialBlock(was, now);
      assert ApplyMoves(Keys(was), MovesBetween(now, from, from)) == Keys(was);
      BlockGrows(Keys(was), now, from, from, p, q);
    }
  }

  /** When no index from the first moved one on exists, the two rankings already agree. */
  lemma NothingToMove(was: seq<Issue>, now: seq<Issue>)
    requires |now| == |was| && |now| <= FirstMoved(was, now)
    requires multiset(Keys(was)) == multiset(Keys(now))
    ensures Keys(was) == Keys(now)
  {
    var ko, kn := Keys(was), Keys(now);
    if FirstDivergence(was, now) == 0 && |now| == 1 {
      assert kn[0] in multiset(ko);
      assert ko == [ko[0]];
    }
  }

  /** Before the first move, the unchanged prefix (at least one issue) is one block of the old order. */
  lemma InitialBlock(was: seq<Issue>, now: seq<Issue>) returns (p: seq<Key>, q: seq<Key>)
    requires |now| == |was| && FirstMoved(was, now) < |now|
    requires multiset(Keys(was)) == multiset(Keys(now))
    requires Distinct(Keys(now))
    ensures Keys(was) == p + Keys(now)[..FirstMoved(was, now)] + q
    ensures Distinct(p + Keys(now)[..FirstMoved(was, now)] + q)
    ensures multiset(p + q) + multiset(Keys(now)[..FirstMoved(was, now)]) == multiset(Keys(now))
  {
    var ko, kn := Keys(was), Keys(now);
    var d := FirstDivergence(was, now);
    if d == 0 {
      p, q := BlockAroundFirst(ko, kn);
    } else {
      assert forall i :: 0 <= i < d ==> ko[i] == kn[i];
      p, q := BlockAsPrefix(ko, kn, d);
    }
    DistinctPermutation(kn, ko);
  }

  /** The first key of the new ranking splits the old order around it. */
  lemma BlockAroundFirst(ko: seq<Key>, kn: seq<Key>) returns (p: seq<Key>, q: seq<Key>)
    requires kn != [] && multiset(ko) == multiset(kn)
    ensures ko == p + kn[..1] + q
    ensures multiset(p + q) + multiset(kn[..1]) == multiset(kn)
  {
    assert kn[0] in multiset(ko);
    var i := IndexOf(ko, kn[0]);
    p, q := ko[..i], ko[i + 1..];
    assert ko == p + [kn[0]] + q;
    assert kn[..1] == [kn[0]];
  }

  /** A common prefix of both rankings is a block at the front of the old order. */
  lemma BlockAsPrefix(ko: seq<Key>, kn: seq<Key>, d: nat) returns (p: seq<Key>, q: seq<Key>)
    requires d <= |ko| && d <= |kn| && multiset(ko) == multiset(kn)
    requires forall i :: 0 <= i < d ==> ko[i] == kn[i]
    ensures ko == p + kn[..d] + q
    ensures multiset(p + q) + multiset(kn[..d]) == multiset(kn)
  {
    p, q := [], ko[d..];
    assert ko[..d] == kn[..d];
    assert ko == ko[..d] + q;
  }

  /** Applying one more move is one more RankAfterIn step. */
  lemma ApplyMovesStep(order: seq<Key>, now: seq<Issue>, from: nat, j: nat)
    requires 1 <= from <= j < |now|
    ensures ApplyMoves(order, MovesBetween(now, from, j + 1))
         == RankAfterIn(ApplyMoves(order, MovesBetween(now, from, j)), now[j].key, now[j - 1].key)
  {
    var ms := MovesBetween(now, from, j + 1);
    assert ms[..|ms| - 1] == MovesBetween(now, from, j);
    assert ms[|ms| - 1] == RankAfter(now[j].key, now[j - 1].key);
  }

  /** The next key of the new ranking is not placed yet, so it lies outside the block. */
  lemma NextIsOutside(kn: seq<Key>, j: nat, p: seq<Key>, q: seq<Key>)
    requires Distinct(kn) && j < |kn|
    requires multiset(p + q) + multiset(kn[..j]) == multiset(kn)
    ensures kn[j] in p + q
  {
    var x := kn[j];
    assert x !in kn[..j];
    assert multiset(kn)[x] == multiset(p + q)[x] + multiset(kn[..j])[x];
    assert x in multiset(kn);
  }

  /** Once the whole new ranking is placed, nothing is left around it. */
  lemma BlockComplete(kn: seq<Key>, p: seq<Key>, q: seq<Key>)
    requires multiset(p + q) + multiset(kn) == multiset(kn)
    ensures p + kn + q == kn
  {
    var rest := multiset(p + q);
    forall y ensures rest[y] == 0 {
      assert (rest + multiset(kn))[y] == rest[y] + multiset(kn)[y];
    }
    assert rest == multiset{};
    assert |p + q| == |rest|;
  }

  /**
   * After the moves of indices from..j-1, the first j keys of the new
   * ranking stand together, in order, between two remainders p and q that
   * hold every other key once.
   */
  ghost predicate Placed(order: seq<Key>, now: seq<Issue>, from: nat, j: nat, p: seq<Key>, q: seq<Key>)
    requires 1 <= from <= j <= |now|
  {
    && Distinct(p + Keys(now)[..j] + q)
    && multiset(p + q) + multiset(Keys(now)[..j]) == multiset(Keys(now))
    && ApplyMoves(order, MovesBetween(now, from, j)) == p + Keys(now)[..j] + q
  }

  /** Once every key is placed the moves have produced the new ranking. */
  lemma AllPlaced(order: seq<Key>, now: seq<Issue>, from: nat, p: seq<Key>, q: seq<Key>)
    requires 1 <= from <= |now|
    requires Placed(order, now, from, |now|, p, q)
    ensures ApplyMoves(order, MovesBetween(now, from, |now|)) == Keys(now)
  {
    assert Keys(now)[..|now|] == Keys(now);
    BlockComplete(Keys(now), p, q);
  }

  /** One move keeps the shape P + placed prefix + Q, with the prefix one longer. */
  lemma BlockStep(order: seq<Key>, now: seq<Issue>, from: nat, j: nat, p: seq<Key>, q: seq<Key>)
    returns (p': seq<Key>, q': seq<Key>)
    requires 1 <= from <= j < |now|
    requires Distinct(Keys(now))
    requires Placed(order, now, from, j, p, q)
    ensures Placed(order, now, from, j + 1, p', q')
  {
    var kn := Keys(now);
    p', q' := BlockExtends(kn, j, p, q);
    MovedAfterBlock(order, now, from, j, p + kn[..j] + q, kn[j], kn[j - 1], p' + kn[..j + 1] + q');
  }

  /** Ranking the next key after the last placed one grows the placed block by that key. */
  lemma BlockExtends(kn: seq<Key>, j: nat, p: seq<Key>, q: seq<Key>) returns (p': seq<Key>, q': seq<Key>)
    requires 1 <= j < |kn| && Distinct(kn)
    requires Distinct(p + kn[..j] + q)
    requires multiset(p + q) + multiset(kn[..j]) == multiset(kn)
    ensures RankAfterIn(p + kn[..j] + q, kn[j], kn[j - 1]) == p' + kn[..j + 1] + q'
    ensures Distinct(p' + kn[..j + 1] + q')
    ensures multiset(p' + q') + multiset(kn[..j + 1]) == multiset(kn)
  {
    var x, b := kn[j], kn[..j];
    NextIsOutside(kn, j, p, q);
    p', q' := RankAfterExtendsBlock(p, b, q, x);
    TakeOneMore(kn, j);
    PlacedOneMore(kn, j, p, q, p', q');
  }

  lemma TakeOneMore<T>(s: seq<T>, j: nat)
    requires j < |s|
    ensures s[..j + 1] == s[..j] + [s[j]]
  {
  }

  lemma PlacedOneMore(kn: seq<Key>, j: nat, p: seq<Key>, q: seq<Key>, p': seq<Key>, q': seq<Key>)
    requires j < |kn|
    requires multiset(p + q) + multiset(kn[..j]) == multiset(kn)
    requires multiset(p' + q') + multiset{kn[j]} == multiset(p + q)
    ensures multiset(p' + q') + multiset(kn[..j + 1]) == multiset(kn)
  {
    TakeOneMore(kn, j);
  }

  lemma MovedAfterBlock(order: seq<Key>, now: seq<Issue>, from: nat, j: nat, s: seq<Key>, x: Key, after: Key, s': seq<Key>)
    requires 1 <= from <= j < |now|
    requires x == now[j].key && after == now[j - 1].key
    requires ApplyMoves(order, MovesBetween(now, from, j)) == s
    requires RankAfterIn(s, x, after) == s'
    ensures ApplyMoves(order, MovesBetween(now, from, j + 1)) == s'
  {
    ApplyMovesStep(order, now, from, j);
  }

  /** The invariant of the move sequence: the placed prefix of the new ranking is one contiguous block. */
  lemma {:induction false} BlockGrows(order: seq<Key>, now: seq<Issue>, from: nat, j: nat, p: seq<Key>, q: seq<Key>)
    requires 1 <= from <= j <= |now|
    requires Distinct(Keys(now))
    requires Placed(order, now, from, j, p, q)
    ensures ApplyMoves(order, MovesBetween(now, from, |now|)) == Keys(now)
    decreases |now| - j
  {
    if j == |now| {
      AllPlaced(order, now, from, p, q);
    } else {
      var p', q' := BlockStep(order, now, from, j, p, q);
      BlockGrows(order, now, from, j + 1, p', q');
    }
  }
}
