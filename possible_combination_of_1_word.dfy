/**
 The two generators of the two-mode script: combination mode (two words,
 every length from 1 up to the longer word's length) and permutation mode
 (one word, full length only). Each collects the strings itertools yields
 into a set, so repeated letters give each string once, and returns the set
 sorted.
 */
module PossibleCombinationOf1Word {
  import opened CaseMapping
  import opened StringOrder
  import opened Permutations

  /** Mode 1: every arrangement of 1 to `maxLength` letters of `word1.lower() + word2.lower()`. */
  method GenerateVariableCombinations(word1: string, word2: string)
    returns (sortedCombinations: seq<string>, maxLength: nat)
    ensures maxLength >= |word1| && maxLength >= |word2|
    ensures maxLength == |word1| || maxLength == |word2|
    ensures StrictlyAscending(sortedCombinations)
    ensures forall t :: t in sortedCombinations <==>
      1 <= |t| <= maxLength && IsArrangement(Lower(word1) + Lower(word2), t)
  {
    var allLetters := Lower(word1) + Lower(word2);
    maxLength := if |word1| >= |word2| then |word1| else |word2|;
    var uniqueCombinations: set<string> := {};
    for k := 1 to maxLength + 1
      invariant forall t :: t in uniqueCombinations <==> 1 <= |t| < k && IsArrangement(allLetters, t)
    {
      var tuples := Perms(allLetters, k);
      for j := 0 to |tuples|
        invariant forall t :: t in uniqueCombinations <==>
          (1 <= |t| < k && IsArrangement(allLetters, t)) || t in tuples[..j]
      {
        assert tuples[..j + 1] == tuples[..j] + [tuples[j]];
        var word := tuples[j];
        uniqueCombinations := uniqueCombinations + {word};
      }
      assert tuples[..|tuples|] == tuples;
      forall t
        ensures t in tuples <==> |t| == k && IsArrangement(allLetters, t)
      {
        PermsAreArrangements(allLetters, k, t);
      }
    }
    sortedCombinations := SortedList(uniqueCombinations);
  }

  /** Mode 2: every distinct ordering of all letters of `word.upper()`; nothing for the empty word. */
  method GenerateFixedLengthPermutations(word: string) returns (sortedPermutations: seq<string>)
    ensures word == [] ==> sortedPermutations == []
    ensures StrictlyAscending(sortedPermutations)
    ensures forall t :: t in sortedPermutations <==>
      word != [] && |t| == |word| && IsArrangement(Upper(word), t)
  {
    if word == [] {
      return [];
    }
    var letters := Upper(word);
    var length := |letters|;
    var uniquePermutations: set<string> := {};
    var tuples := Perms(letters, length);
    for j := 0 to |tuples|
      invariant forall t :: t in uniquePermutations <==> t in tuples[..j]
    {
      assert tuples[..j + 1] == tuples[..j] + [tuples[j]];
      uniquePermutations := uniquePermutations + {tuples[j]};
    }
    assert tuples[..|tuples|] == tuples;
    forall t
      ensures t in tuples <==> |t| == length && IsArrangement(letters, t)
    {
      PermsAreArrangements(letters, length, t);
    }
    sortedPermutations := SortedList(uniquePermutations);
  }

  /** A combination is exactly a string whose letters the two lower-cased words hold between them. */
  lemma CombinationIsSubMultiset(word1: string, word2: string, t: string)
    ensures IsArrangement(Lower(word1) + Lower(word2), t) <==>
      multiset(t) <= multiset(Lower(word1)) + multiset(Lower(word2))
  {
    ArrangementIsSubMultiset(Lower(word1) + Lower(word2), t);
  }

  /** Every single letter of either lower-cased word is one of the combinations. */
  lemma EveryLetterIsCombination(word1: string, word2: string, i: nat)
    requires i < |word1| + |word2|
    ensures IsArrangement(Lower(word1) + Lower(word2), [(Lower(word1) + Lower(word2))[i]])
  {
    SingleLetterIsArrangement(Lower(word1) + Lower(word2), i);
  }

  /** A fixed-length result is exactly a permutation of the upper-cased word. */
  lemma FixedResultIsPermutation(word: string, t: string)
    ensures |t| == |word| && IsArrangement(Upper(word), t) <==> multiset(t) == multiset(Upper(word))
  {
    FullArrangementIsPermutation(Upper(word), t);
  }

  /** Mode 1 gives the same listing and length on every call with the same words. */
  method VariableCombinationsDeterministic(word1: string, word2: string)
    returns (first: seq<string>, second: seq<string>, firstLength: nat, secondLength: nat)
    ensures first == second && firstLength == secondLength
  {
    first, firstLength := GenerateVariableCombinations(word1, word2);
    second, secondLength := GenerateVariableCombinations(word1, word2);
    AscendingUnique(first, second);
  }

  /** Mode 2 gives the same listing on every call with the same word. */
  method FixedLengthPermutationsDeterministic(word: string)
    returns (first: seq<string>, second: seq<string>)
    ensures first == second
  {
    first := GenerateFixedLengthPermutations(word);
    second := GenerateFixedLengthPermutations(word);
    AscendingUnique(first, second);
  }

  /** Combination mode ignores the case of the words: upper-casing the first word changes nothing. */
  method VariableCombinationsIgnoreCase(word1: string, word2: string)
    returns (asGiven: seq<string>, upperCased: seq<string>, asGivenLength: nat, upperCasedLength: nat)
    ensures asGiven == upperCased && asGivenLength == upperCasedLength
  {
    asGiven, asGivenLength := GenerateVariableCombinations(word1, word2);
    upperCased, upperCasedLength := GenerateVariableCombinations(Upper(word1), word2);
    LowerIgnoresCase(word1);
    AscendingUnique(asGiven, upperCased);
  }
}
