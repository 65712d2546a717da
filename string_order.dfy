/**
 Python's ordering of `str` values (code point by code point, a proper
 prefix first) and `sorted(list(s))` for a set `s` of strings.
 */
module StringOrder {

  /** Python's `a < b` on strings. */
  predicate Below(a: string, b: string)
    ensures Below(a, b) ==> a != b
  {
    if a == [] then b != []
    else b != [] && (a[0] < b[0] || (a[0] == b[0] && Below(a[1..], b[1..])))
  }

  lemma {:induction false} BelowIrreflexive(a: string)
    ensures !Below(a, a)
  {
    if a != [] {
      BelowIrreflexive(a[1..]);
    }
  }

  lemma {:induction false} BelowTransitive(a: string, b: string, c: string)
    requires Below(a, b) && Below(b, c)
    ensures Below(a, c)
  {
    if a != [] && a[0] == b[0] && b[0] == c[0] {
      BelowTransitive(a[1..], b[1..], c[1..]);
    }
  }

  lemma {:induction false} BelowTotal(a: string, b: string)
    requires a != b
    ensures Below(a, b) || Below(b, a)
  {
    if a != [] && b != [] && a[0] == b[0] {
      assert a == [a[0]] + a[1..] && b == [b[0]] + b[1..];
      BelowTotal(a[1..], b[1..]);
    }
  }

  /** Every element is strictly below every later one. */
  ghost predicate StrictlyAscending(s: seq<string>)
  {
    forall i, j :: 0 <= i < j < |s| ==> Below(s[i], s[j])
  }

  /** Each element below the next is enough for the whole sequence to be strictly ascending. */
  lemma {:induction false} AdjacentAscending(s: seq<string>)
    requires forall i :: 0 <= i < |s| - 1 ==> Below(s[i], s[i + 1])
    ensures StrictlyAscending(s)
  {
    if |s| > 1 {
      AdjacentAscending(s[1..]);
      forall j | 1 < j < |s|
        ensures Below(s[0], s[j])
      {
        assert s[1..][0] == s[1] && s[1..][j - 1] == s[j];
        BelowTransitive(s[0], s[1], s[j]);
      }
      forall i, j | 0 <= i < j < |s|
        ensures Below(s[i], s[j])
      {
        if i > 0 {
          assert s[1..][i - 1] == s[i] && s[1..][j - 1] == s[j];
        }
      }
    }
  }

  /** A strictly ascending sequence holds no string twice. */
  lemma StrictlyAscendingHasNoDuplicates(s: seq<string>, i: nat, j: nat)
    requires StrictlyAscending(s)
    requires i < j < |s|
    ensures s[i] != s[j]
  {
    BelowIrreflexive(s[i]);
  }

  /**
   Two strictly ascending sequences with the same elements are equal: the
   sorted listing of a set is determined by the set alone.
   */
  lemma {:induction false} AscendingUnique(a: seq<string>, b: seq<string>)
    requires StrictlyAscending(a) && StrictlyAscending(b)
    requires forall t :: t in a <==> t in b
    ensures a == b
    decreases |a|
  {
    if a == [] {
      assert forall i :: 0 <= i < |b| ==> b[i] in b;
    } else {
      assert a[0] in a;
      assert b != [];
      if a[0] != b[0] {
        assert b[0] in a && a[0] in b;
        var i :| 0 <= i < |a| && a[i] == b[0];
        var j :| 0 <= j < |b| && b[j] == a[0];
        BelowTransitive(a[0], b[0], a[0]);
        BelowIrreflexive(a[0]);
      }
      forall t
        ensures t in a[1..] <==> t in b[1..]
      {
        if t in a[1..] {
          var i :| 1 <= i < |a| && a[i] == t;
          BelowIrreflexive(t);
          assert t in b;
        }
        if t in b[1..] {
          var j :| 1 <= j < |b| && b[j] == t;
          BelowIrreflexive(t);
          assert t in a;
        }
      }
      AscendingUnique(a[1..], b[1..]);
      assert a == [a[0]] + a[1..] && b == [b[0]] + b[1..];
    }
  }

  /** The string of a non-empty set that is below all its others. */
  method Smallest(items: set<string>) returns (m: string)
    requires items != {}
    ensures m in items
    ensures forall t :: t in items && t != m ==> Below(m, t)
  {
    m :| m in items;
    var rest := items - {m};
    while rest != {}
      invariant rest <= items && m in items && m !in rest
      invariant forall t :: t in items && t !in rest && t != m ==> Below(m, t)
      decreases rest
    {
      var x :| x in rest;
      if Below(x, m) {
        forall t | t in items && t !in rest && t != x
          ensures Below(x, t)
        {
          if t != m {
            BelowTransitive(x, m, t);
          }
        }
        m := x;
      } else {
        BelowTotal(x, m);
      }
      rest := rest - {x};
    }
  }

  /** `sorted(list(items))`: every string of the set once, in ascending order. */
  method SortedList(items: set<string>) returns (r: seq<string>)
    ensures StrictlyAscending(r)
    ensures forall t :: t in r <==> t in items
    ensures |r| == |items|
  {
    r := [];
    var rest := items;
    while rest != {}
      invariant rest <= items
      invariant StrictlyAscending(r)
      invariant forall t :: t in items <==> t in r || t in rest
      invariant forall t :: t in r ==> t !in rest
      invariant forall i, t :: 0 <= i < |r| && t in rest ==> Below(r[i], t)
      invariant |r| + |rest| == |items|
      decreases rest
    {
      var m := Smallest(rest);
      r := r + [m];
      rest := rest - {m};
    }
  }
}
