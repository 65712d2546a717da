/**
 `itertools.permutations(xs, k)` over a string: every ordering of `k`
 distinct POSITIONS of `xs`, in lexicographic order of the positions. Two
 positions holding the same letter still give two tuples, so the list may
 hold the same string more than once. A tuple of characters is modelled by
 the string `"".join` makes of it.
 */
module Permutations {

  /** `xs` without the element at position `i`; the others keep their order. */
  function Remove(xs: string, i: nat): (r: string)
    requires i < |xs|
    ensures |r| == |xs| - 1
  {
    xs[..i] + xs[i + 1..]
  }

  /** The letters after the removed one move one place down. */
  lemma RemoveAt(xs: string, i: nat)
    requires i < |xs|
    ensures forall p :: 0 <= p < |xs| - 1 ==> Remove(xs, i)[p] == xs[if p < i then p else p + 1]
  {
  }

  /** Removing a position removes one copy of its letter from the multiset. */
  lemma RemoveMultiset(xs: string, i: nat)
    requires i < |xs|
    ensures multiset(Remove(xs, i)) == multiset(xs) - multiset{xs[i]}
  {
    assert xs == xs[..i] + [xs[i]] + xs[i + 1..];
  }

  /** Every tuple of `ts` with `c` in front. */
  function Prepend(c: char, ts: seq<string>): seq<string>
  {
    seq(|ts|, j requires 0 <= j < |ts| => [c] + ts[j])
  }

  /** The tuples of length `k` taken from the positions of `xs`, in the order itertools yields them. */
  function Perms(xs: string, k: nat): (r: seq<string>)
    ensures k > |xs| ==> r == []
    decreases k, |xs| + 1
  {
    if k == 0 then [[]] else PermsFrom(xs, k, 0)
  }

  /** The tuples of `Perms(xs, k)` whose first position is `i` or later. */
  function PermsFrom(xs: string, k: nat, i: nat): (r: seq<string>)
    requires 0 < k && i <= |xs|
    ensures k > |xs| ==> r == []
    decreases k, |xs| - i
  {
    if i == |xs| then []
    else Prepend(xs[i], Perms(Remove(xs, i), k - 1)) + PermsFrom(xs, k, i + 1)
  }

  /** `idx` lists pairwise-distinct positions of a sequence of length `n`. */
  predicate DistinctPositions(idx: seq<nat>, n: nat)
  {
    && (forall m :: 0 <= m < |idx| ==> idx[m] < n)
    && (forall m, m' :: 0 <= m < m' < |idx| ==> idx[m] != idx[m'])
  }

  /** The string of the letters of `xs` at the positions `idx`. */
  function Spell(xs: string, idx: seq<nat>): (t: string)
    requires forall m :: 0 <= m < |idx| ==> idx[m] < |xs|
  {
    seq(|idx|, m requires 0 <= m < |idx| => xs[idx[m]])
  }

  /** `t` is the letters of `xs` at some sequence of pairwise-distinct positions. */
  ghost predicate IsArrangement(xs: string, t: string)
  {
    exists idx :: DistinctPositions(idx, |xs|) && Spell(xs, idx) == t
  }

  /** Positions of `Remove(xs, j)` mapped back to positions of `xs`. */
  ghost function Lift(idx: seq<nat>, j: nat): seq<nat>
  {
    seq(|idx|, m requires 0 <= m < |idx| => if idx[m] < j then idx[m] else idx[m] + 1)
  }

  /** Positions of `xs` other than `j` mapped to positions of `Remove(xs, j)`. */
  ghost function Squeeze(idx: seq<nat>, j: nat): seq<nat>
    requires forall m :: 0 <= m < |idx| ==> idx[m] != j
  {
    seq(|idx|, m requires 0 <= m < |idx| => if idx[m] < j then idx[m] else idx[m] - 1)
  }

  /** `t` is the letter at position `j` of `xs` followed by a tuple of the other positions. */
  ghost predicate StartsAt(xs: string, k: nat, j: nat, t: string)
    requires 0 < k && j < |xs|
  {
    t != [] && t[0] == xs[j] && t[1..] in Perms(Remove(xs, j), k - 1)
  }

  lemma PrependMember(c: char, ts: seq<string>, t: string)
    ensures t in Prepend(c, ts) <==> t != [] && t[0] == c && t[1..] in ts
  {
    if t in Prepend(c, ts) {
      var p :| 0 <= p < |ts| && Prepend(c, ts)[p] == t;
      assert t[1..] == ts[p];
    }
    if t != [] && t[0] == c && t[1..] in ts {
      var p :| 0 <= p < |ts| && ts[p] == t[1..];
      assert t == [c] + ts[p];
      assert Prepend(c, ts)[p] == t;
    }
  }

  lemma {:induction false} PermsFromMember(xs: string, k: nat, i: nat, t: string)
    requires 0 < k && i <= |xs|
    ensures t in PermsFrom(xs, k, i) <==> exists j :: i <= j < |xs| && StartsAt(xs, k, j, t)
    decreases |xs| - i
  {
    if i < |xs| {
      PermsFromMember(xs, k, i + 1, t);
      var head := Prepend(xs[i], Perms(Remove(xs, i), k - 1));
      PrependMember(xs[i], Perms(Remove(xs, i), k - 1), t);
      assert PermsFrom(xs, k, i) == head + PermsFrom(xs, k, i + 1);
      if exists j :: i <= j < |xs| && StartsAt(xs, k, j, t) {
        var j :| i <= j < |xs| && StartsAt(xs, k, j, t);
        if j > i {
          assert t in PermsFrom(xs, k, i + 1);
        } else {
          assert t in head;
        }
      }
      if t in PermsFrom(xs, k, i) {
        if t in head {
          assert StartsAt(xs, k, i, t);
        } else {
          assert t in PermsFrom(xs, k, i + 1);
        }
      }
    }
  }

  /** A tuple of length `k > 0` is a first letter followed by a tuple of the other positions. */
  lemma PermsMember(xs: string, k: nat, t: string)
    requires 0 < k
    ensures t in Perms(xs, k) <==> exists j :: 0 <= j < |xs| && StartsAt(xs, k, j, t)
  {
    PermsFromMember(xs, k, 0, t);
  }

  lemma LiftDistinct(idx: seq<nat>, j: nat, n: nat)
    requires j < n && DistinctPositions(idx, n - 1)
    ensures DistinctPositions([j] + Lift(idx, j), n)
  {
    var lifted := [j] + Lift(idx, j);
    forall m, m' | 0 <= m < m' < |lifted|
      ensures lifted[m] != lifted[m']
    {
      if m > 0 {
        assert lifted[m] == Lift(idx, j)[m - 1] && lifted[m'] == Lift(idx, j)[m' - 1];
      }
    }
  }

  lemma SqueezeDistinct(idx: seq<nat>, n: nat)
    requires DistinctPositions(idx, n) && idx != []
    ensures DistinctPositions(Squeeze(idx[1..], idx[0]), n - 1)
  {
    var tail := idx[1..];
    forall m | 0 <= m < |tail|
      ensures tail[m] != idx[0]
    {
      assert tail[m] == idx[m + 1];
    }
    var squeezed := Squeeze(tail, idx[0]);
    forall m, m' | 0 <= m < m' < |squeezed|
      ensures squeezed[m] != squeezed[m']
    {
      assert tail[m] == idx[m + 1] && tail[m'] == idx[m' + 1];
    }
  }

  /** Soundness: every tuple has length `k` and spells `xs` at distinct positions. */
  lemma {:induction false} PermsSound(xs: string, k: nat, t: string)
    requires t in Perms(xs, k)
    ensures |t| == k && IsArrangement(xs, t)
    decreases k
  {
    if k == 0 {
      assert t == [];
      assert DistinctPositions([], |xs|) && Spell(xs, []) == t;
    } else {
      PermsMember(xs, k, t);
      var j :| 0 <= j < |xs| && StartsAt(xs, k, j, t);
      var rest := Remove(xs, j);
      PermsSound(rest, k - 1, t[1..]);
      var idx' :| DistinctPositions(idx', |rest|) && Spell(rest, idx') == t[1..];
      var idx := [j] + Lift(idx', j);
      LiftDistinct(idx', j, |xs|);
      RemoveAt(xs, j);
      forall m | 0 <= m < |t|
        ensures Spell(xs, idx)[m] == t[m]
      {
        if m > 0 {
          assert idx[m] == Lift(idx', j)[m - 1];
          assert rest[idx'[m - 1]] == t[1..][m - 1];
        }
      }
      assert Spell(xs, idx) == t;
    }
  }

  /** Completeness: the letters at any distinct positions form a tuple of `Perms`. */
  lemma {:induction false} PermsComplete(xs: string, idx: seq<nat>)
    requires DistinctPositions(idx, |xs|)
    ensures Spell(xs, idx) in Perms(xs, |idx|)
    decreases |idx|
  {
    var t := Spell(xs, idx);
    if idx == [] {
      assert t == [];
    } else {
      var j := idx[0];
      var rest := Remove(xs, j);
      var idx' := Squeeze(idx[1..], j);
      SqueezeDistinct(idx, |xs|);
      RemoveAt(xs, j);
      PermsComplete(rest, idx');
      forall m | 0 <= m < |idx'|
        ensures Spell(rest, idx')[m] == t[1..][m]
      {
        assert t[1..][m] == xs[idx[m + 1]];
      }
      assert Spell(rest, idx') == t[1..];
      assert StartsAt(xs, |idx|, j, t);
      PermsMember(xs, |idx|, t);
    }
  }

  /** The tuples of length `k` are exactly the arrangements of length `k`. */
  lemma PermsAreArrangements(xs: string, k: nat, t: string)
    ensures t in Perms(xs, k) <==> |t| == k && IsArrangement(xs, t)
  {
    if t in Perms(xs, k) {
      PermsSound(xs, k, t);
    }
    if |t| == k && IsArrangement(xs, t) {
      var idx :| DistinctPositions(idx, |xs|) && Spell(xs, idx) == t;
      PermsComplete(xs, idx);
    }
  }

  /** A string is a tuple of `Perms` iff its letters form a sub-multiset of those of `xs`. */
  lemma {:induction false} PermsSubMultiset(xs: string, t: string)
    ensures t in Perms(xs, |t|) <==> multiset(t) <= multiset(xs)
    decreases |t|
  {
    if t != [] {
      assert t == [t[0]] + t[1..];
      assert multiset(t) == multiset{t[0]} + multiset(t[1..]);
      PermsMember(xs, |t|, t);
      if t in Perms(xs, |t|) {
        var j :| 0 <= j < |xs| && StartsAt(xs, |t|, j, t);
        PermsSubMultiset(Remove(xs, j), t[1..]);
        RemoveMultiset(xs, j);
        assert xs[j] in multiset(xs);
      }
      if multiset(t) <= multiset(xs) {
        assert t[0] in multiset(xs);
        var j :| 0 <= j < |xs| && xs[j] == t[0];
        PermsSubMultiset(Remove(xs, j), t[1..]);
        RemoveMultiset(xs, j);
        assert StartsAt(xs, |t|, j, t);
      }
    }
  }

  /** An arrangement of `xs` is exactly a string whose letters `xs` holds (with multiplicity). */
  lemma ArrangementIsSubMultiset(xs: string, t: string)
    ensures IsArrangement(xs, t) <==> multiset(t) <= multiset(xs)
  {
    PermsAreArrangements(xs, |t|, t);
    PermsSubMultiset(xs, t);
  }

  /** An arrangement as long as `xs` is a permutation of `xs`, and back. */
  lemma FullArrangementIsPermutation(xs: string, t: string)
    ensures |t| == |xs| && IsArrangement(xs, t) <==> multiset(t) == multiset(xs)
  {
    ArrangementIsSubMultiset(xs, t);
    if multiset(t) == multiset(xs) {
      assert |multiset(t)| == |t| && |multiset(xs)| == |xs|;
    }
    if |t| == |xs| && multiset(t) <= multiset(xs) {
      SameSizeSubMultiset(xs, t);
    }
  }

  lemma {:induction false} SameSizeSubMultiset(xs: string, t: string)
    requires |t| == |xs| && multiset(t) <= multiset(xs)
    ensures multiset(t) == multiset(xs)
    decreases |t|
  {
    if t != [] {
      assert t == [t[0]] + t[1..];
      assert multiset(t) == multiset{t[0]} + multiset(t[1..]);
      assert t[0] in multiset(xs);
      var j :| 0 <= j < |xs| && xs[j] == t[0];
      RemoveMultiset(xs, j);
      SameSizeSubMultiset(Remove(xs, j), t[1..]);
    }
  }

  /** Each single letter of `xs` is an arrangement of `xs`. */
  lemma SingleLetterIsArrangement(xs: string, i: nat)
    requires i < |xs|
    ensures IsArrangement(xs, [xs[i]])
  {
    assert DistinctPositions([i], |xs|) && Spell(xs, [i]) == [xs[i]];
  }

  /** `n! / (n - k)!`, the number of orderings of `k` of `n` distinct slots. */
  function Falling(n: nat, k: nat): nat
  {
    if k == 0 then 1 else if n == 0 then 0 else n * Falling(n - 1, k - 1)
  }

  /** itertools yields `|xs|! / (|xs| - k)!` tuples, however many letters repeat. */
  lemma {:induction false} PermsCount(xs: string, k: nat)
    ensures |Perms(xs, k)| == Falling(|xs|, k)
    decreases k, |xs| + 1
  {
    if k > 0 {
      PermsFromCount(xs, k, 0);
    }
  }

  lemma {:induction false} PermsFromCount(xs: string, k: nat, i: nat)
    requires 0 < k && i <= |xs|
    ensures |xs| == 0 ==> |PermsFrom(xs, k, i)| == 0
    ensures |xs| > 0 ==> |PermsFrom(xs, k, i)| == (|xs| - i) * Falling(|xs| - 1, k - 1)
    decreases k, |xs| - i
  {
    if i < |xs| {
      var tails := Perms(Remove(xs, i), k - 1);
      var later := PermsFrom(xs, k, i + 1);
      PermsCount(Remove(xs, i), k - 1);
      PermsFromCount(xs, k, i + 1);
      assert PermsFrom(xs, k, i) == Prepend(xs[i], tails) + later;
      MultiplyStep(|xs| - i - 1, Falling(|xs| - 1, k - 1));
    }
  }

  lemma MultiplyStep(a: nat, f: nat)
    ensures (a + 1) * f == f + a * f
  {
  }
}
