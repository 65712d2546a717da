# Word combination generator — a Dafny model of its enumerator

The repository holds two small scripts. Each reads words from the console and
writes every distinct letter arrangement it can build from them to a text
file. The only real logic is the enumerator, which comes in three functions:

- `generate_variable_combinations(word1, word2)` (combination mode of
  `PossibleCombinationOf1Word.py`) and its copy `generate_combinations(word1,
  word2)` (`WordCombinationGenerator.py`). They lower-case both words and join
  their letters into one list. For every `k` from 1 to `max(len(word1),
  len(word2))` they take every ordering of `k` distinct positions of that list
  (`itertools.permutations`). They collect the strings in a set and return
  the set sorted, together with the maximum length.
- `generate_fixed_length_permutations(word)` (permutation mode). It returns
  `[]` for the empty word. Otherwise it upper-cases the word, collects every
  full-length ordering of its positions in a set, and returns the set sorted.

The model is written in the source's imperative form. Each generator is a
`method` whose `for` loops add the strings yielded for each length to a
`set<string>`; a selection-sort method then lists that set in order. Each
method is proved against a direct specification:

- the listing is strictly ascending in Python's string order;
- a string is in the listing exactly when its length is in range and it is
  an *arrangement* of the case-folded letters, that is, the letters at some
  sequence of pairwise-distinct positions.

Lemmas then show what that specification means:

- an arrangement is exactly a string whose letters the input holds, counted
  with multiplicity;
- a full-length arrangement is exactly a permutation;
- every single letter is an arrangement;
- lower-casing makes combination mode ignore the case of the words;
- itertools yields `n!/(n-k)!` tuples however many letters repeat (none when
  `k > n`);
- a strictly ascending listing of a set is unique. From this follow
  determinism, word-order symmetry and the equality of the two copies of the
  combination generator.

Modules, one per file:

- `CaseMapping` (`case_mapping.dfy`): `str.lower()` and `str.upper()` on ASCII.
- `StringOrder` (`string_order.dfy`): Python's `<` on strings, and
  `sorted(list(s))` for a set of strings.
- `Permutations` (`permutations.dfy`): `itertools.permutations(xs, k)` as a
  recursive function `Perms`, with its characterisations.
- `PossibleCombinationOf1Word` (`possible_combination_of_1_word.dfy`): the
  two generators of the two-mode script.
- `WordCombinationGenerator` (`word_combination_generator.dfy`): the generator
  of the one-mode script.
- `Scenarios` (`scenarios.dfy`): the inputs "AAB", "DUG", "dug" and "as" + "an" worked
  out from the generators' contracts.

Where the documentation and the code disagree, the model follows the code:

- The docstring of `generate_combinations` (WordCombinationGenerator.py:13)
  says it returns a list. The code returns a pair (line 38), and its caller
  unpacks one (line 59). `GenerateCombinations` returns both parts.
- The comments at PossibleCombinationOf1Word.py:31 and
  WordCombinationGenerator.py:28 say that itertools yields unique
  permutations. It does not: it treats positions as distinct, so "AAB" gives
  six tuples (`Scenarios.FixedAab`, `Permutations.PermsCount`). The set is what
  removes the three repeats.
- The combination generators do not require non-empty words. Only the console
  code rejects empty input. The model therefore takes any two strings, and on
  two empty words returns an empty listing with length 0.

## Model

| member | source | states |
|---|---|---|
| PossibleCombinationOf1Word.GenerateVariableCombinations | PossibleCombinationOf1Word.py:5-39 | `maxLength` is the larger of the two word lengths; the listing is strictly ascending, so it has no duplicates; a string is listed iff its length is in 1..maxLength and it spells `lower(word1) + lower(word2)` at pairwise-distinct positions (soundness and completeness) |
| PossibleCombinationOf1Word.GenerateFixedLengthPermutations | PossibleCombinationOf1Word.py:41-65 | the empty word gives `[]`; otherwise the listing is strictly ascending and a string is listed iff it is as long as the word and spells `upper(word)` at pairwise-distinct positions |
| PossibleCombinationOf1Word.CombinationIsSubMultiset | PossibleCombinationOf1Word.py:19-34 | a string is an arrangement of the combined lower-cased letters iff its letter multiset is contained in the union of the two words' letter multisets |
| PossibleCombinationOf1Word.EveryLetterIsCombination | PossibleCombinationOf1Word.py:30-34 | every single letter of the combined letters is an arrangement, so it is listed |
| PossibleCombinationOf1Word.FixedResultIsPermutation | PossibleCombinationOf1Word.py:55-63 | a full-length arrangement of `upper(word)` is exactly a string with the same letter multiset (a permutation), in both directions |
| PossibleCombinationOf1Word.VariableCombinationsIgnoreCase | PossibleCombinationOf1Word.py:19-21 | upper-casing the first word gives the same listing and length: lower-casing makes the combinations case-insensitive |
| PossibleCombinationOf1Word.VariableCombinationsDeterministic | PossibleCombinationOf1Word.py:37-39 | two calls with the same words return the same listing and the same length |
| PossibleCombinationOf1Word.FixedLengthPermutationsDeterministic | PossibleCombinationOf1Word.py:65 | two calls with the same word return the same listing |
| WordCombinationGenerator.GenerateCombinations | WordCombinationGenerator.py:5-38 | returns a pair; `maxLength` is the larger word length; the listing is strictly ascending; a string is listed iff its length is in 1..maxLength and it spells `lower(word1) + lower(word2)` at pairwise-distinct positions |
| WordCombinationGenerator.ArrangementsIgnoreWordOrder | WordCombinationGenerator.py:18-21 | a string is an arrangement of `lower(word1) + lower(word2)` iff it is one of `lower(word2) + lower(word1)` |
| WordCombinationGenerator.SwappedWordsAgree | WordCombinationGenerator.py:5-38 | swapping `word1` and `word2` gives the same listing and the same length |
| WordCombinationGenerator.AgreesWithVariableCombinations | WordCombinationGenerator.py:5-38 | `generate_combinations` and `generate_variable_combinations` return the same listing and length on every input |
| WordCombinationGenerator.CombinationsDeterministic | WordCombinationGenerator.py:36-38 | two calls with the same words return the same listing and the same length |
| Permutations.Perms | PossibleCombinationOf1Word.py:32 | `itertools.permutations(xs, k)`: yields nothing when k exceeds the number of letters; its tuples are characterised by PermsSound and PermsComplete, and counted by PermsCount |
| Permutations.PermsMember | PossibleCombinationOf1Word.py:32 | a tuple of length k > 0 is the letter at some position j followed by a tuple of length k - 1 of the remaining positions, and every such string is a tuple |
| Permutations.PermsSound | PossibleCombinationOf1Word.py:32 | every tuple itertools yields for length k has length k and spells the input at pairwise-distinct positions |
| Permutations.PermsComplete | PossibleCombinationOf1Word.py:32 | the letters at any sequence of pairwise-distinct positions form a tuple that itertools yields |
| Permutations.PermsAreArrangements | PossibleCombinationOf1Word.py:32 | the tuples of length k are exactly the arrangements of length k |
| Permutations.PermsSubMultiset | PossibleCombinationOf1Word.py:32 | a string is a tuple of its own length iff its letter multiset is contained in the input's |
| Permutations.ArrangementIsSubMultiset | PossibleCombinationOf1Word.py:32 | an arrangement is exactly a string whose letters the input holds, counted with multiplicity |
| Permutations.FullArrangementIsPermutation | PossibleCombinationOf1Word.py:62 | an arrangement as long as the input is exactly a string with the same letter multiset |
| Permutations.SameSizeSubMultiset | PossibleCombinationOf1Word.py:62 | a contained letter multiset of the same size is the whole multiset |
| Permutations.SingleLetterIsArrangement | PossibleCombinationOf1Word.py:32 | each single letter of the input is an arrangement |
| Permutations.RemoveMultiset | PossibleCombinationOf1Word.py:32 | taking one position out of the letter list takes one copy of its letter out of the multiset |
| Permutations.PermsCount | PossibleCombinationOf1Word.py:32 | itertools yields `Falling(n, k)` tuples for n letters, whether or not letters repeat; that is n!/(n-k)! when k <= n, and 0 when k > n |
| Permutations.PermsFromCount | PossibleCombinationOf1Word.py:32 | the tuples starting at position i or later number (n - i) * `Falling(n - 1, k - 1)`, that is (n - i) * (n-1)!/(n-k)! when k <= n, and none when k > n |
| StringOrder.Below | PossibleCombinationOf1Word.py:37 | Python's `<` on `str`, code point by code point with a proper prefix first; a string is never below itself, and BelowIrreflexive, BelowTransitive and BelowTotal make it a strict total order |
| StringOrder.BelowIrreflexive | PossibleCombinationOf1Word.py:37 | no string sorts before itself |
| StringOrder.BelowTransitive | PossibleCombinationOf1Word.py:37 | the string order is transitive |
| StringOrder.BelowTotal | PossibleCombinationOf1Word.py:37 | of two different strings one sorts before the other |
| StringOrder.AdjacentAscending | PossibleCombinationOf1Word.py:37 | a sequence whose neighbours are in order is strictly ascending |
| StringOrder.StrictlyAscendingHasNoDuplicates | PossibleCombinationOf1Word.py:27-37 | a strictly ascending listing holds no string twice |
| StringOrder.AscendingUnique | PossibleCombinationOf1Word.py:37 | two strictly ascending listings with the same strings are equal, so the sorted listing of a set depends on the set alone |
| StringOrder.Smallest | PossibleCombinationOf1Word.py:37 | returns the element of a non-empty set that sorts before all its others |
| StringOrder.SortedList | PossibleCombinationOf1Word.py:37 | `sorted(list(s))`: strictly ascending, holds exactly the strings of `s`, and has `len(s)` elements |
| CaseMapping.Lower | PossibleCombinationOf1Word.py:21 | `lower()` keeps the length, turns each ASCII upper-case letter into its lower-case counterpart (32 code points up), leaves no upper-case ASCII letter, and changes nothing else |
| CaseMapping.Upper | PossibleCombinationOf1Word.py:55 | `upper()` keeps the length, turns each ASCII lower-case letter into its upper-case counterpart (32 code points down), leaves no lower-case ASCII letter, and changes nothing else |
| CaseMapping.LowerIgnoresCase | PossibleCombinationOf1Word.py:20-21 | lower-casing an upper-cased string gives the same string as lower-casing the original |
| Scenarios.AabPermutations | PossibleCombinationOf1Word.py:55-63 | the full-length arrangements of "AAB" are exactly "AAB", "ABA" and "BAA" |
| Scenarios.FixedAab | PossibleCombinationOf1Word.py:41-65 | permutation mode on "AAB" returns exactly `["AAB", "ABA", "BAA"]`, although itertools yields six tuples |
| Scenarios.DugPermutations | PossibleCombinationOf1Word.py:55-63 | the full-length arrangements of "DUG" are exactly its six orderings |
| Scenarios.FixedDug | PossibleCombinationOf1Word.py:41-65 | permutation mode on "DUG" returns exactly `["DGU", "DUG", "GDU", "GUD", "UDG", "UGD"]` |
| Scenarios.FixedLowerCaseDug | PossibleCombinationOf1Word.py:55-65 | permutation mode upper-cases first: "dug" returns exactly the six permutations of "DUG" |
| Scenarios.AsanCombinations | PossibleCombinationOf1Word.py:19-34 | the arrangements of one or two of the letters a, s, a, n are exactly the ten strings listed |
| Scenarios.VariableAsAn | PossibleCombinationOf1Word.py:5-39 | combination mode on "as" and "an" returns length 2 and exactly `["a", "aa", "an", "as", "n", "na", "ns", "s", "sa", "sn"]`: no length-3 string, no "ss" or "nn" |

## Left out

- `run_script` in both files is left out. It covers console prompting, the
  mode selector, `sys.exit` on bad input, writing the report file, the
  `IOError` handler and `os.path.abspath`. All of this is I/O.
- The report format is left out: the header lines, the sorted letter list in
  the header, the numbered `"<i>) <word>"` lines and the total line.
- CaseMapping.Lower: models only the ASCII part of Python's `str.lower()`. Full
  Unicode case mapping is a library table, and some of its mappings change a
  string's length. With such input, `max_length` (taken from the original
  words) and the lower-cased list can differ in length; the model cannot
  show this.
- CaseMapping.Upper: models only the ASCII part of `str.upper()`, for the same
  reason. For example, `"ß".upper()` is `"SS"`, so in Python a fixed-mode
  result can be longer than the word. In the model it never is.
- A character is a Unicode scalar value, and string order compares them one
  by one. This agrees with Python's code-point order for strings of scalar
  values only. A Python `str` can also hold lone surrogate code points
  (U+D800 to U+DFFF), which a Dafny `char` cannot represent, so the model does
  not cover such strings.
- `sorted` (Timsort) is not mirrored. `StringOrder.SortedList` is a selection
  sort over the set, specified by its result. Only the result is modelled, and
  it is unique (`StringOrder.AscendingUnique`).
- `itertools.permutations` is modelled by `Permutations.Perms`, which yields
  the tuples in lexicographic order of positions, as itertools does. That
  order is built into the definition but not proved as a separate property:
  the result passes through a set, so no result depends on it.
- A tuple of characters and the string `"".join` makes of it are the same
  value in the model.
- Performance and the combinatorial blow-up of the enumeration are left out.
