# Vocabulary builder of `mse/vocab.cc`, modelled in Dafny

`Vocab` counts the tokens of a text corpus and keeps the most frequent ones.
It assigns each one an id and answers lookups in both directions.

- **Constructor.** It reads every line of every file under a directory. It skips empty lines and every
  line that begins with `<doc` or `</doc` (the markers, but also, say, `<document`). It splits each remaining line into tokens and counts every lower-cased
  token in a `std::map`, along with the number of content lines and the number of tokens.
- **Ranking.** The map becomes a list of `(count, word)` pairs, sorted by count descending and then by
  word ascending.
- **Reserved ids.** Ids 0, 1 and 2 are `<UNK>`, `<s>` and `</s>`. Their frequencies start as the token
  count, the line count and the line count.
- **Assignment.** The sorted entries become ids 3, 4, … in order, and each kept count is subtracted from
  the `<UNK>` slot. The loop stops once the table holds `size + 3` ids, where
  `size + 3` is an `unsigned` sum computed modulo 2^32.
- **Queries.** `frequency(id)` and `word(id)` read the tables behind a range guard. `id(word)` answers
  `<UNK>`'s id 0 for an unknown word. `ConvertToWords` and `ConvertToIds` apply those lookups
  element-wise.

The project has four modules:

- `Strings` (`strings.dfy`): the prefix test behind `line.find(p) == 0`, and the lexicographic order of
  `std::string`, proved to be a strict total order. A C++ byte string is modelled as the Dafny string
  with one character per byte, whose code is the byte's `unsigned char` value (0-255). Comparing those
  codes gives the same order as `std::string`'s `operator<`.
- `Corpus` (`corpus.dfy`): the line filter, the stream of lower-cased tokens, and the frequency map.
  `CountCorpus` is the counting loop pair (lines 36-46) written as `for` loops, proved against those
  functions.
- `Ranking` (`ranking.dfy`): the comparator and a sort, plus the loop that copies the map into a list
  (`Materialize`). The ghost function `Ranked(m)` is the sorted listing of a map. `RankedUnique` proves
  there is only one, so the result does not depend on the order the map is walked in.
- `Vocabulary` (`vocabulary.dfy`): the assignment loop (`AssignIds`), the specification `Build` of what
  the constructor produces, and the class `Vocab`. The class has the source's fields (`frequencies`,
  `numToWords`, `wordToNums`, `size`, `numWords`) as `const` fields, since nothing changes them after
  construction, its lookups as functions over them, and the two
  conversion loops as methods. The constructor ensures `State() == Build(lines, size, split, lower)`.
  All the `Build…` lemmas therefore describe every constructed `Vocab`.

Behaviours of the code that the model keeps as written, even where they look unintended:

- **Range guard.** The guard in `frequency` and `word` is `id > size()` (lines 84, 95). So `id == size`
  passes the guard and reads one element past the end. The model gives this case its own result,
  `Failed(PastEnd)`, kept apart from the `Failed(RangeError)` that the code throws for `id > size`. It
  never claims that `id == size` raises.
- **Size test after the append.** The size test comes after the append (line 78). With `size == 0`, a
  corpus with any token still keeps one word, so there are 4 ids, not 3 (`ZeroSizeKeepsOne`).
- **Wrap-around of `size + 3`.** `size` is an `unsigned` (line 21), so the bound `size + 3` at line 78
  is computed modulo 2^32. For the three largest sizes, 2^32 - 3 and above, the bound wraps to 0, 1 or 2.
  The loop then stops after its first append, and a corpus with any token gets 4 ids
  (`WrappedSizeKeepsOne`). For example, `Retained(2, 2^32 - 1, 0) == 1` where `min(2, size)` would be 2
  (`LargestSizeRetainsOne`). The model keeps `size` as a 32-bit `Unsigned` and computes the bound with
  the wrap (`Bound`). `Cap(size)` is the size when the sum does not wrap, and 0 when it does.
- **Reserved names overwritten.** A lower-cased token equal to `<s>` or `</s>` overwrites the reserved
  entry of `word_to_nums_` (line 77). `to_lower_copy` never yields `<UNK>`; it can collide in the model
  only because `lower` is an arbitrary parameter there. `ReservedCollision` shows a table with 4 ids but 3 keys. The one-to-one
  correspondence `|word_to_nums_| == size` is proved only when no token is a reserved name
  (`BuildNoCollision`).

## Model

| member | source | states |
|---|---|---|
| Strings.StartsWith | mse/vocab.cc:38 | `line.find(p) == 0`: the line begins with `p` |
| Strings.Less | mse/vocab.cc:60 | `std::string`'s `operator<`: the first differing character decides, and a proper prefix comes first |
| Strings.LessIrreflexive | mse/vocab.cc:60 | no string is before itself under `operator<` |
| Strings.LessTransitive | mse/vocab.cc:60 | lexicographic order is transitive |
| Strings.LessTotal | mse/vocab.cc:60 | two different strings are ordered one way or the other |
| Corpus.IsContent | mse/vocab.cc:38 | a line is counted unless it is empty or begins with `<doc` or `</doc` |
| Corpus.ContentLines | mse/vocab.cc:36-40 | the lines that pass the filter at line 38, in order (properties in `ContentLinesAreContent`) |
| Corpus.ContentLinesAreContent | mse/vocab.cc:36-40 | the filter never yields more lines than it reads, and every line it yields is a content line of the input |
| Corpus.Tokens | mse/vocab.cc:36-44 | the lower-cased tokens of every content line, in corpus order |
| Corpus.Inc | mse/vocab.cc:43 | `++frequency[w]`: `w` becomes a key, its count goes up by one from 0 when it was missing, and every other key keeps its count |
| Corpus.Count | mse/vocab.cc:42-44 | the map after one `++` per token, in token order (properties in `CountBounds`, `CountTotal` and `CountIsMultiplicity`) |
| Corpus.CountBounds | mse/vocab.cc:42-44 | every count in the map is at least 1 and at most the number of tokens |
| Corpus.MarkersAreSkipped | mse/vocab.cc:38-40 | the empty line and any line starting with `<doc` or `</doc` is not content |
| Corpus.PlainLineIsContent | mse/vocab.cc:38-40 | a non-empty line not starting with `<` is content |
| Corpus.LineContribution | mse/vocab.cc:36-46 | a content line appends its lower-cased tokens and one line; any other line changes neither the tokens nor the line count |
| Corpus.Lowered | mse/vocab.cc:42-43 | lower-casing keeps one token per token |
| Corpus.LoweredFixed | mse/vocab.cc:43 | tokens that lower-casing leaves alone reach the map unchanged |
| Corpus.IncSum | mse/vocab.cc:43 | one `++frequency[w]` adds exactly one to the sum of the map |
| Corpus.CountTotal | mse/vocab.cc:41-46 | the counts of the frequency map sum to the number of tokens |
| Corpus.CountIsMultiplicity | mse/vocab.cc:42-44 | the keys of the map are exactly the tokens, and each count is the token's number of occurrences |
| Corpus.CountLine | mse/vocab.cc:42-44 | the inner loop leaves the map of all tokens so far plus this line's lower-cased tokens |
| Corpus.CountCorpus | mse/vocab.cc:36-46 | the counting loops give the map of the token stream, `num_lines` = number of content lines, `num_words` = number of tokens, and the map sums to `num_words` |
| Ranking.Before | mse/vocab.cc:57-61 | the comparator: the higher count first, and equal counts by ascending word |
| Ranking.BeforeIrreflexive | mse/vocab.cc:57-61 | the comparator is irreflexive |
| Ranking.BeforeTransitive | mse/vocab.cc:57-61 | the comparator is transitive |
| Ranking.BeforeTotal | mse/vocab.cc:57-61 | entries for different words are always ordered by the comparator |
| Ranking.Insert | mse/vocab.cc:57-61 | insertion adds exactly the one entry (multiset) |
| Ranking.InsertSorted | mse/vocab.cc:57-61 | inserting an entry for a new word into a sorted list keeps it sorted |
| Ranking.Sort | mse/vocab.cc:57-61 | the result is a permutation of the input and strictly sorted by the comparator |
| Ranking.SortRepresents | mse/vocab.cc:52-61 | sorting a listing of the map gives a listing of the map |
| Ranking.SortedUnique | mse/vocab.cc:57-61 | two strictly sorted lists with the same elements are equal |
| Ranking.Listing | mse/vocab.cc:52-55 | one entry per key of the map with its count, no word twice |
| Ranking.Ranked | mse/vocab.cc:52-61 | the ranking lists the map and is sorted |
| Ranking.RankedUnique | mse/vocab.cc:52-61 | every sorted listing of the map is the ranking, whatever order the map was walked in |
| Ranking.Materialize | mse/vocab.cc:52-55 | the copy loop lists every key of the map once with its count |
| Ranking.RepresentsTotals | mse/vocab.cc:52-55 | a listing has as many entries as the map has keys and sums to the map's total |
| Ranking.SumCountsPrefix | mse/vocab.cc:75 | the counts of a prefix never sum to more than the whole list, so slot 0 cannot underflow |
| Vocabulary.Bound | mse/vocab.cc:78 | the loop's bound: `size + 3` as an `unsigned` sum, reduced modulo 2^32 (its values in `BoundWraps`) |
| Vocabulary.BoundWraps | mse/vocab.cc:78 | the bound is `size + 3` when that fits in 32 bits, and `size + 3 - 2^32` when it wraps |
| Vocabulary.Retained | mse/vocab.cc:73-79 | while entries remain, the loop appends at least one more than it had, and never more than there are |
| Vocabulary.RetainedClosedForm | mse/vocab.cc:78 | the append-then-check stop rule with the wrapped bound, in closed form: one more than already appended, otherwise `min(n, Cap(size))` |
| Vocabulary.RetainedFromStart | mse/vocab.cc:78 | from the start the loop keeps `min(m, max(size, 1))` of `m` entries when `size + 3` fits in 32 bits, and `min(m, 1)` when it wraps |
| Vocabulary.LargestSizeRetainsOne | mse/vocab.cc:78 | with `size == 2^32 - 1`, two entries give one kept word, not two |
| Vocabulary.AssignIds | mse/vocab.cc:63-79 | the seeded assignment loop, whose break tests the wrapped bound, builds the table of the first `Retained` ranked entries |
| Vocabulary.IdMap | mse/vocab.cc:69-77 | `word_to_nums_` after the reserved ids and one assignment per appended word, later ones replacing earlier ones (its properties are `IdMapSound` and `IdMapInjective`) |
| Vocabulary.Slots | mse/vocab.cc:63-75 | `frequencies_` after the loop: slot 0 is the token count minus the kept counts, slots 1 and 2 the line count, then the kept counts (properties in `TabulateShape`) |
| Vocabulary.Tabulate | mse/vocab.cc:63-77 | the three tables after the seeding and the appends of the kept entries (properties in `TabulateShape`, `TabulateAt` and `TabulateWellFormed`) |
| Vocabulary.Assign | mse/vocab.cc:52-79 | the table made from a frequency map: its ranking, cut by the stop rule (properties in the `Assign…` lemmas) |
| Vocabulary.Build | mse/vocab.cc:21-81 | what the constructor holds for a corpus, a size, a tokenizer and a lower-casing (properties in the `Build…` lemmas) |
| Vocabulary.IdMapSound | mse/vocab.cc:69-77 | `word_to_nums_` holds the reserved names and the appended words, and every id it gives names its key |
| Vocabulary.IdMapSnoc | mse/vocab.cc:77 | a new, non-reserved word keeps every earlier id and takes the next one, so the map gains exactly one key |
| Vocabulary.IdMapInjective | mse/vocab.cc:77 | distinct non-reserved words give a map with one key per id, each mapped to its own id |
| Vocabulary.TabulateEntries | mse/vocab.cc:73-77 | ids 3 on hold the kept entries' counts and words, in order |
| Vocabulary.TabulateWellFormed | mse/vocab.cc:63-79 | a table built from a sorted list is well formed |
| Vocabulary.TabulateKeepsTopRanked | mse/vocab.cc:73-79 | a table of a prefix of the ranking holds keys with their counts, each ranking before every key left out |
| Vocabulary.SlotsRankFirst | mse/vocab.cc:73-79 | slots holding a prefix of the ranking rank before every key outside the prefix |
| Vocabulary.TabulateNoCollision | mse/vocab.cc:77 | distinct non-reserved words: ids and words correspond one to one |
| Vocabulary.AssignWellFormed | mse/vocab.cc:63-79 | any frequency map whose counts sum to at most `num_words` gives a well-formed table |
| Vocabulary.AssignShape | mse/vocab.cc:63-80 | the reserved slots, `<UNK>`'s mass and `3 + min(m, max(Cap(size), 1))` ids for any frequency map, where `Cap(size)` is 0 once `size + 3` wraps |
| Vocabulary.AssignKeepsTopRanked | mse/vocab.cc:73-79 | the kept words are keys with their counts and outrank every key not kept |
| Vocabulary.AssignNoCollision | mse/vocab.cc:69-77 | without reserved keys, ids and words correspond one to one |
| Vocabulary.BuildWellFormed | mse/vocab.cc:21-81 | every constructed table is well formed: the reserved names first, `<s>` and `</s>` with equal counts, slot 0 plus the kept counts equal to `num_words`, every id of `word_to_nums_` naming its key, every word mapped, and ids 3 on strictly ordered by the comparator |
| Vocabulary.BuildShape | mse/vocab.cc:63-80 | ids 0-2 are `<UNK>`, `<s>`, `</s>`; `<s>` and `</s>` hold the line count; slot 0 plus the kept counts equal the token count; there are `3 + min(m, max(Cap(size), 1))` ids for `m` distinct tokens, where `Cap(size)` is `size` and 0 once `size + 3` wraps |
| Vocabulary.ZeroSizeKeepsOne | mse/vocab.cc:78 | with `size == 0` a corpus with any token still gets 4 ids |
| Vocabulary.WrappedSizeKeepsOne | mse/vocab.cc:78 | with `size >= 2^32 - 3` the bound wraps, and a corpus with any token gets 4 ids |
| Vocabulary.BuildKeepsTopRanked | mse/vocab.cc:52-79 | every word of id 3 on is a token with its number of occurrences as count, and outranks every token that was not kept |
| Vocabulary.BuildNoCollision | mse/vocab.cc:69-77 | when no token is a reserved name, `word_to_nums_` has one key per id and maps each word back to its own id |
| Vocabulary.ReservedCollision | mse/vocab.cc:69-77 | the corpus `<s>` gives ids `<UNK>`, `<s>`, `</s>`, `<s>` with `<s>` mapped to 3: fewer keys than ids |
| Vocabulary.TwoLineExample | mse/vocab.cc:21-80 | the corpus `the cat sat` / `the dog sat` with size 3 gives frequencies `[1, 2, 2, 2, 2, 1]` and words `sat`, `the`, `cat` as ids 3-5 |
| Vocabulary.BuildTable | mse/vocab.cc:24-80 | the constructor's counting, copying, sorting and assignment together compute `Build` |
| Vocabulary.Vocab.constructor | mse/vocab.cc:21-81 | the constructed object holds `Build(lines, size, split, lower)` and is valid |
| Vocabulary.Vocab.Frequency | mse/vocab.cc:83-92 | below `size` the stored count; at `size` the past-the-end read; above `size` a range error |
| Vocabulary.Vocab.Word | mse/vocab.cc:94-103 | below `size` the stored word; at `size` the past-the-end read; above `size` a range error |
| Vocabulary.Vocab.Id | mse/vocab.cc:105-112 | the id is below `size`, names the word when the word is known, and is 0 otherwise |
| Vocabulary.Vocab.RankOrder | mse/vocab.cc:73-79 | from id 3 on counts never increase and equal counts come in ascending word order |
| Vocabulary.Vocab.IdRoundTrip | mse/vocab.cc:105-112 | `word(id(w)) == w` for every mapped word |
| Vocabulary.Vocab.UnknownWord | mse/vocab.cc:105-112 | an unknown word reads back as `<UNK>`, whose frequency is the token count minus the kept counts |
| Vocabulary.Vocab.ConvertToWords | mse/vocab.cc:114-120 | succeeds exactly when every id is below `size`, then maps `word` element-wise; otherwise fails with the fault of the first id `word` does not answer |
| Vocabulary.Vocab.ConvertToIds | mse/vocab.cc:122-128 | never fails, keeps the length, and element `i` is `id(words[i])`, below `size` |

## Left out

- Directory traversal and file reading (mse/vocab.cc:28-36): the corpus is the sequence of lines of all files, in the order the walk visits them.
- Printing directory names to the console (mse/vocab.cc:32): output only.
- `RawtextSplitter::Split` (mse/vocab.cc:41) and `boost::algorithm::to_lower_copy` (mse/vocab.cc:43) are library code outside the model. They are the function parameters `split` and `lower`, and the `text_splitter_` member that holds the splitter is not stored.
- `std::sort` (mse/vocab.cc:57): a functional insertion sort stands in for sorting the vector in place. Since the comparator is a strict total order on entries with distinct words, every correct sort gives the same list (`RankedUnique`).
- The visiting order of `std::map` (mse/vocab.cc:53): `Materialize` picks keys in an unspecified order.
- Unsigned 32-bit arithmetic of the counters: counts, `num_lines`, `num_words` and ids are unbounded naturals, so wrap-around on more than 2^32 - 1 tokens is not modelled. The requested size, by contrast, is a 32-bit `Unsigned`, and the wrap of `size + 3` is modelled.
- The text of the `range_error` message (mse/vocab.cc:85-88): only the fault kind is kept.
- `boost::shared_ptr` ownership of the splitter: not modelled.
- Vocabulary.Vocab.Frequency, Vocabulary.Vocab.Word: reading one past the end at `id == size` is undefined behaviour in C++. The model reports it as `Failed(PastEnd)` rather than any particular value.
- Vocabulary.Vocab.ConvertToWords: an id equal to `size` ends the conversion with `Failed(PastEnd)`. The C++ code would instead carry on with whatever value the past-the-end read gives.
