/** Small worked inputs for both modes, settled by the generators' contracts. */
module Scenarios {
  import opened CaseMapping
  import opened StringOrder
  import opened Permutations
  import PossibleCombinationOf1Word

  function Occurrences(a: char, x: char): nat { if a == x then 1 else 0 }

  lemma Count2(a: char, b: char, x: char)
    ensures multiset{a, b}[x] == Occurrences(a, x) + Occurrences(b, x)
  {
    assert multiset{a, b} == multiset{a} + multiset{b};
  }

  lemma Count3(a: char, b: char, c: char, x: char)
    ensures multiset{a, b, c}[x] == Occurrences(a, x) + Occurrences(b, x) + Occurrences(c, x)
  {
    assert multiset{a, b, c} == multiset{a} + multiset{b} + multiset{c};
  }

  lemma Count4(a: char, b: char, c: char, d: char, x: char)
    ensures multiset{a, b, c, d}[x] == Occurrences(a, x) + Occurrences(b, x) + Occurrences(c, x) + Occurrences(d, x)
  {
    assert multiset{a, b, c, d} == multiset{a} + multiset{b} + multiset{c} + multiset{d};
  }

  lemma ThreeLetters(t: string, xs: string)
    requires |t| == 3 && |xs| == 3 && multiset(t) == multiset(xs)
    ensures multiset{t[0], t[1], t[2]} == multiset{xs[0], xs[1], xs[2]}
  {
    assert t == [t[0], t[1], t[2]] && xs == [xs[0], xs[1], xs[2]];
  }

  /** `t` spells `xs` at the three distinct positions `i`, `j`, `m`. */
  lemma Spells3(xs: string, t: string, i: nat, j: nat, m: nat)
    requires i < |xs| && j < |xs| && m < |xs| && i != j && j != m && i != m
    requires t == [xs[i], xs[j], xs[m]]
    ensures IsArrangement(xs, t)
  {
    assert DistinctPositions([i, j, m], |xs|) && Spell(xs, [i, j, m]) == t;
  }

  lemma AabLetters(a: char, b: char, c: char)
    requires multiset{a, b, c} == multiset{'A', 'A', 'B'}
    ensures [a, b, c] in ["AAB", "ABA", "BAA"]
  {
    Count3(a, b, c, 'A');
    Count3(a, b, c, 'B');
    Count3('A', 'A', 'B', a);
    Count3('A', 'A', 'B', b);
    Count3('A', 'A', 'B', c);
  }

  lemma AabListed(t: string)
    requires |t| == 3 && IsArrangement("AAB", t)
    ensures t in ["AAB", "ABA", "BAA"]
  {
    FullArrangementIsPermutation("AAB", t);
    ThreeLetters(t, "AAB");
    AabLetters(t[0], t[1], t[2]);
    assert t == [t[0], t[1], t[2]];
  }

  lemma AabListedAreArrangements(t: string)
    requires t in ["AAB", "ABA", "BAA"]
    ensures |t| == 3 && IsArrangement("AAB", t)
  {
    if t == "AAB" { Spells3("AAB", t, 0, 1, 2); }
    else if t == "ABA" { Spells3("AAB", t, 0, 2, 1); }
    else { Spells3("AAB", t, 2, 0, 1); }
  }

  /** The permutations of "AAB" are the three strings with one 'B' and two 'A's. */
  lemma AabPermutations(t: string)
    ensures |t| == 3 && IsArrangement("AAB", t) <==> t in ["AAB", "ABA", "BAA"]
  {
    if |t| == 3 && IsArrangement("AAB", t) {
      AabListed(t);
    }
    if t in ["AAB", "ABA", "BAA"] {
      AabListedAreArrangements(t);
    }
  }

  lemma AabAscending()
    ensures StrictlyAscending(["AAB", "ABA", "BAA"])
  {
    AdjacentAscending(["AAB", "ABA", "BAA"]);
  }

  /** Permutation mode on "AAB" lists "AAB", "ABA", "BAA" and nothing else, from six raw tuples. */
  method FixedAab() returns (listing: seq<string>)
    ensures listing == ["AAB", "ABA", "BAA"]
    ensures |Perms("AAB", 3)| == 6
  {
    listing := PossibleCombinationOf1Word.GenerateFixedLengthPermutations("AAB");
    assert Upper("AAB") == "AAB";
    forall t
      ensures t in listing <==> t in ["AAB", "ABA", "BAA"]
    {
      AabPermutations(t);
    }
    AabAscending();
    AscendingUnique(listing, ["AAB", "ABA", "BAA"]);
    PermsCount("AAB", 3);
  }

  lemma DugLetters(a: char, b: char, c: char)
    requires multiset{a, b, c} == multiset{'D', 'U', 'G'}
    ensures [a, b, c] in ["DGU", "DUG", "GDU", "GUD", "UDG", "UGD"]
  {
    Count3(a, b, c, 'D');
    Count3(a, b, c, 'U');
    Count3(a, b, c, 'G');
    Count3('D', 'U', 'G', a);
    Count3('D', 'U', 'G', b);
    Count3('D', 'U', 'G', c);
  }

  lemma DugListed(t: string)
    requires |t| == 3 && IsArrangement("DUG", t)
    ensures t in ["DGU", "DUG", "GDU", "GUD", "UDG", "UGD"]
  {
    FullArrangementIsPermutation("DUG", t);
    ThreeLetters(t, "DUG");
    DugLetters(t[0], t[1], t[2]);
    assert t == [t[0], t[1], t[2]];
  }

  lemma DugListedAreArrangements(t: string)
    requires t in ["DGU", "DUG", "GDU", "GUD", "UDG", "UGD"]
    ensures |t| == 3 && IsArrangement("DUG", t)
  {
    if t == "DGU" { Spells3("DUG", t, 0, 2, 1); }
    else if t == "DUG" { Spells3("DUG", t, 0, 1, 2); }
    else if t == "GDU" { Spells3("DUG", t, 2, 0, 1); }
    else if t == "GUD" { Spells3("DUG", t, 2, 1, 0); }
    else if t == "UDG" { Spells3("DUG", t, 1, 0, 2); }
    else { Spells3("DUG", t, 1, 2, 0); }
  }

  /** The permutations of "DUG" are its six orderings. */
  lemma DugPermutations(t: string)
    ensures |t| == 3 && IsArrangement("DUG", t) <==> t in ["DGU", "DUG", "GDU", "GUD", "UDG", "UGD"]
  {
    if |t| == 3 && IsArrangement("DUG", t) {
      DugListed(t);
    }
    if t in ["DGU", "DUG", "GDU", "GUD", "UDG", "UGD"] {
      DugListedAreArrangements(t);
    }
  }

  lemma DugAscending()
    ensures StrictlyAscending(["DGU", "DUG", "GDU", "GUD", "UDG", "UGD"])
  {
    AdjacentAscending(["DGU", "DUG", "GDU", "GUD", "UDG", "UGD"]);
  }

  /** Permutation mode on "DUG" lists its six permutations, in order. */
  method FixedDug() returns (listing: seq<string>)
    ensures listing == ["DGU", "DUG", "GDU", "GUD", "UDG", "UGD"]
  {
    listing := PossibleCombinationOf1Word.GenerateFixedLengthPermutations("DUG");
    assert Upper("DUG") == "DUG";
    forall t
      ensures t in listing <==> t in ["DGU", "DUG", "GDU", "GUD", "UDG", "UGD"]
    {
      DugPermutations(t);
    }
    DugAscending();
    AscendingUnique(listing, ["DGU", "DUG", "GDU", "GUD", "UDG", "UGD"]);
  }

  lemma UpperDug()
    ensures Upper("dug") == "DUG"
  {
  }

  /** Permutation mode upper-cases first: "dug" lists the six permutations of "DUG". */
  method FixedLowerCaseDug() returns (listing: seq<string>)
    ensures listing == ["DGU", "DUG", "GDU", "GUD", "UDG", "UGD"]
  {
    listing := PossibleCombinationOf1Word.GenerateFixedLengthPermutations("dug");
    UpperDug();
    forall t
      ensures t in listing <==> t in ["DGU", "DUG", "GDU", "GUD", "UDG", "UGD"]
    {
      DugPermutations(t);
    }
    DugAscending();
    AscendingUnique(listing, ["DGU", "DUG", "GDU", "GUD", "UDG", "UGD"]);
  }

  lemma AsanOne(a: char)
    requires multiset{a} <= multiset{'a', 's', 'a', 'n'}
    ensures [a] in ["a", "aa", "an", "as", "n", "na", "ns", "s", "sa", "sn"]
  {
    Count4('a', 's', 'a', 'n', a);
  }

  lemma AsanTwo(a: char, b: char)
    requires multiset{a, b} <= multiset{'a', 's', 'a', 'n'}
    ensures [a, b] in ["a", "aa", "an", "as", "n", "na", "ns", "s", "sa", "sn"]
  {
    Count2(a, b, a);
    Count2(a, b, b);
    Count4('a', 's', 'a', 'n', a);
    Count4('a', 's', 'a', 'n', b);
  }

  lemma AsanListed(t: string)
    requires 1 <= |t| <= 2 && IsArrangement("asan", t)
    ensures t in ["a", "aa", "an", "as", "n", "na", "ns", "s", "sa", "sn"]
  {
    ArrangementIsSubMultiset("asan", t);
    assert multiset("asan") == multiset{'a', 's', 'a', 'n'};
    if |t| == 1 {
      assert t == [t[0]];
      AsanOne(t[0]);
    } else {
      assert t == [t[0], t[1]];
      AsanTwo(t[0], t[1]);
    }
  }

  /** `t` spells `xs` at the two distinct positions `i`, `j`. */
  lemma Spells2(xs: string, t: string, i: nat, j: nat)
    requires i < |xs| && j < |xs| && i != j
    requires t == [xs[i], xs[j]]
    ensures IsArrangement(xs, t)
  {
    assert DistinctPositions([i, j], |xs|) && Spell(xs, [i, j]) == t;
  }

  lemma AsanListedAreArrangements(t: string)
    requires t in ["a", "aa", "an", "as", "n", "na", "ns", "s", "sa", "sn"]
    ensures 1 <= |t| <= 2 && IsArrangement("asan", t)
  {
    if t == "a" { SingleLetterIsArrangement("asan", 0); }
    else if t == "aa" { Spells2("asan", t, 0, 2); }
    else if t == "an" { Spells2("asan", t, 0, 3); }
    else if t == "as" { Spells2("asan", t, 0, 1); }
    else if t == "n" { SingleLetterIsArrangement("asan", 3); }
    else if t == "na" { Spells2("asan", t, 3, 0); }
    else if t == "ns" { Spells2("asan", t, 3, 1); }
    else if t == "s" { SingleLetterIsArrangement("asan", 1); }
    else if t == "sa" { Spells2("asan", t, 1, 0); }
    else { Spells2("asan", t, 1, 3); }
  }

  /** The combinations of one or two letters of 'a', 's', 'a', 'n'. */
  lemma AsanCombinations(t: string)
    ensures 1 <= |t| <= 2 && IsArrangement("asan", t) <==> t in ["a", "aa", "an", "as", "n", "na", "ns", "s", "sa", "sn"]
  {
    if 1 <= |t| <= 2 && IsArrangement("asan", t) {
      AsanListed(t);
    }
    if t in ["a", "aa", "an", "as", "n", "na", "ns", "s", "sa", "sn"] {
      AsanListedAreArrangements(t);
    }
  }

  lemma AsanAscending()
    ensures StrictlyAscending(["a", "aa", "an", "as", "n", "na", "ns", "s", "sa", "sn"])
  {
    AdjacentAscending(["a", "aa", "an", "as", "n", "na", "ns", "s", "sa", "sn"]);
  }

  lemma AsanLower()
    ensures Lower("as") + Lower("an") == "asan"
  {
  }

  /** Combination mode on "as" and "an": lengths 1 and 2 only, each string once, in order. */
  method VariableAsAn() returns (listing: seq<string>, maxLength: nat)
    ensures maxLength == 2
    ensures listing == ["a", "aa", "an", "as", "n", "na", "ns", "s", "sa", "sn"]
  {
    listing, maxLength := PossibleCombinationOf1Word.GenerateVariableCombinations("as", "an");
    AsanLower();
    forall t
      ensures t in listing <==> t in ["a", "aa", "an", "as", "n", "na", "ns", "s", "sa", "sn"]
    {
      AsanCombinations(t);
    }
    AsanAscending();
    AscendingUnique(listing, ["a", "aa", "an", "as", "n", "na", "ns", "s", "sa", "sn"]);
  }
}
