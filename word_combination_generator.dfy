/**
 The one-mode script: the same combination generator as mode 1 of the
 two-mode script, written out a second time.
 */
module WordCombinationGenerator {
  import opened CaseMapping
  import opened StringOrder
  import opened Permutations
  import PossibleCombinationOf1Word

  /** Every arrangement of 1 to `maxLength` letters of `word1.lower() + word2.lower()`, and `maxLength`. */
  method GenerateCombinations(word1: string, word2: string)
    returns (sortedCombinations: seq<string>, maxLength: nat)
    ensures maxLength >= |word1| && maxLength >= |word2|
    ensures maxLength == |word1| || maxLength == |word2|
    ensures StrictlyAscending(sortedCombinations)
    ensures forall t :: t in sortedCombinations <==>
      1 <= |t| <= maxLength && IsArrangement(Lower(word1) + Lower(word2), t)
  {
    var allLetters := Lower(word1) + Lower(word2);
    maxLength := if |word1| >= |word2| then |word1| else |word2|;
    var uniqueCombinations: set<string> := {};
    for k := 1 to maxLength + 1
      invariant forall t :: t in uniqueCombinations <==> 1 <= |t| < k && IsArrangement(allLetters, t)
    {
      var tuples := Perms(allLetters, k);
      for j := 0 to |tuples|
        invariant forall t :: t in uniqueCombinations <==>
          (1 <= |t| < k && IsArrangement(allLetters, t)) || t in tuples[..j]
      {
        assert tuples[..j + 1] == tuples[..j] + [tuples[j]];
        var word := tuples[j];
        uniqueCombinations := uniqueCombinations + {word};
      }
      assert tuples[..|tuples|] == tuples;
      forall t
        ensures t in tuples <==> |t| == k && IsArrangement(allLetters, t)
      {
        PermsAreArrangements(allLetters, k, t);
      }
    }
    sortedCombinations := SortedList(uniqueCombinations);
  }

  /** Only the combined letters matter: swapping the words changes no arrangement. */
  lemma ArrangementsIgnoreWordOrder(word1: string, word2: string, t: string)
    ensures IsArrangement(Lower(word1) + Lower(word2), t) <==> IsArrangement(Lower(word2) + Lower(word1), t)
  {
    ArrangementIsSubMultiset(Lower(word1) + Lower(word2), t);
    ArrangementIsSubMultiset(Lower(word2) + Lower(word1), t);
    assert multiset(Lower(word1) + Lower(word2)) == multiset(Lower(word2) + Lower(word1));
  }

  /** Swapping the two words gives the same listing and the same length. */
  method SwappedWordsAgree(word1: string, word2: string)
    returns (forward: seq<string>, backward: seq<string>, forwardLength: nat, backwardLength: nat)
    ensures forward == backward && forwardLength == backwardLength
  {
    forward, forwardLength := GenerateCombinations(word1, word2);
    backward, backwardLength := GenerateCombinations(word2, word1);
    forall t
      ensures t in forward <==> t in backward
    {
      ArrangementsIgnoreWordOrder(word1, word2, t);
    }
    AscendingUnique(forward, backward);
  }

  /** This generator and mode 1 of the two-mode script give the same result on every input. */
  method AgreesWithVariableCombinations(word1: string, word2: string)
    returns (here: seq<string>, there: seq<string>, hereLength: nat, thereLength: nat)
    ensures here == there && hereLength == thereLength
  {
    here, hereLength := GenerateCombinations(word1, word2);
    there, thereLength := PossibleCombinationOf1Word.GenerateVariableCombinations(word1, word2);
    AscendingUnique(here, there);
  }

  /** The generator gives the same listing and length on every call with the same words. */
  method CombinationsDeterministic(word1: string, word2: string)
    returns (first: seq<string>, second: seq<string>, firstLength: nat, secondLength: nat)
    ensures first == second && firstLength == secondLength
  {
    first, firstLength := GenerateCombinations(word1, word2);
    second, secondLength := GenerateCombinations(word1, word2);
    AscendingUnique(first, second);
  }
}
