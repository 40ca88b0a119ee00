/**
  The vocabulary table of mse/vocab.cc: the three reserved ids, the id
  assignment loop with its append-then-check truncation (lines 63-80), the
  specification `Build` of what the constructor produces, and the `Vocab`
  class with its lookups (lines 83-128).
 */
module Vocabulary {
  import opened Strings
  import opened Corpus
  import opened Ranking

  const Unk: string := "<UNK>"
  const Bos: string := "<s>"
  const Eos: string := "</s>"

  /** The words of ids 0, 1 and 2. */
  const Reserved: seq<string> := [Unk, Bos, Eos]

  /** `word_to_nums_` before any corpus word is added. */
  const ReservedIds: map<string, nat> := map[Unk := 0, Bos := 1, Eos := 2]

  /** Why a lookup by id did not give a value. */
  datatype Fault =
    | RangeError  // `id > size`: the source throws `range_error`
    | PastEnd     // `id == size`: the guard lets it through and the source reads one past the end

  datatype Lookup<T> = Found(value: T) | Failed(fault: Fault)

  /** The state a `Vocab` holds once constructed; its size is `|frequencies|`. */
  datatype Table = Table(
    frequencies: seq<nat>,
    numToWords: seq<string>,
    wordToNums: map<string, nat>,
    numWords: nat)

  /** The counts of a list of entries, position by position. */
  function Counts(es: seq<Entry>): (r: seq<nat>)
    ensures |r| == |es|
  {
    if es == [] then [] else Counts(es[..|es| - 1]) + [es[|es| - 1].count]
  }

  /** The words of a list of entries, position by position. */
  function Words(es: seq<Entry>): (r: seq<string>)
    ensures |r| == |es|
  {
    if es == [] then [] else Words(es[..|es| - 1]) + [es[|es| - 1].word]
  }

  function Sum(xs: seq<nat>): nat {
    if xs == [] then 0 else Sum(xs[..|xs| - 1]) + xs[|xs| - 1]
  }

  function Min(a: nat, b: nat): nat { if a <= b then a else b }

  function Max(a: nat, b: nat): nat { if a <= b then b else a }

  /** The requested size is a C++ `unsigned`: 32 bits wide. */
  newtype Unsigned = x: int | 0 <= x < 0x1_0000_0000

  /**
    The loop's bound `size + 3`, an `unsigned` sum: it wraps round to 0, 1
    or 2 for the three largest sizes.
   */
  function Bound(maxSize: Unsigned): nat {
    (maxSize as int + 3) % 0x1_0000_0000
  }

  /** The bound is `size + 3` when that fits in 32 bits, and drops by 2^32 when it does not. */
  lemma BoundWraps(maxSize: Unsigned)
    ensures Bound(maxSize) < 0x1_0000_0000
    ensures maxSize as int + 3 < 0x1_0000_0000 ==> Bound(maxSize) == maxSize as int + 3
    ensures maxSize as int + 3 >= 0x1_0000_0000 ==> Bound(maxSize) == maxSize as int + 3 - 0x1_0000_0000
  {
  }

  /**
    The number of corpus words the bound lets through beyond the first: the
    size itself, or none once `size + 3` wraps.
   */
  function Cap(maxSize: Unsigned): nat {
    if maxSize as int + 3 < 0x1_0000_0000 then maxSize as nat else 0
  }

  /**
    How many of `n` ranked entries the assignment loop appends when it
    already appended `appended` of them and was not stopped: it appends one
    more, then stops once the table holds `Bound(maxSize)` ids.
   */
  function Retained(n: nat, maxSize: Unsigned, appended: nat): (k: nat)
    requires appended <= n
    ensures appended <= k <= n
    ensures appended < n ==> appended < k
    decreases n - appended
  {
    if appended == n then n
    else if 3 + (appended + 1) >= Bound(maxSize) then appended + 1
    else Retained(n, maxSize, appended + 1)
  }

  /**
    `word_to_nums_` after the reserved ids and then `ws[i] := 3 + i` in order;
    a later assignment to the same word replaces an earlier one.
   */
  function IdMap(ws: seq<string>): map<string, nat> {
    if ws == [] then ReservedIds
    else IdMap(ws[..|ws| - 1])[ws[|ws| - 1] := 3 + |ws| - 1]
  }

  /**
    `frequencies_` for the entries `kept`: slot 0 holds the words not kept,
    slots 1 and 2 the line count, then one count per kept entry.
   */
  function Slots(kept: seq<Entry>, numWords: nat, numLines: nat): seq<nat>
    requires SumCounts(kept) <= numWords
  {
    [numWords - SumCounts(kept), numLines, numLines] + Counts(kept)
  }

  /** The table holding the reserved ids and then the entries `kept`, in order. */
  function Tabulate(kept: seq<Entry>, numWords: nat, numLines: nat): Table
    requires SumCounts(kept) <= numWords
  {
    Table(
      Slots(kept, numWords, numLines),
      Reserved + Words(kept),
      IdMap(Words(kept)),
      numWords)
  }

  /**
    The table the constructor builds from a frequency map `m` whose counts
    add up to at most `numWords`: the ranking of `m`, cut by the stop rule.
   */
  ghost function Assign(m: map<string, nat>, maxSize: Unsigned, numWords: nat, numLines: nat): Table
    requires MapSum(m) <= numWords
  {
    var ranked := Ranked(m);
    assert SumCounts(ranked) <= numWords by { RepresentsTotals(ranked, m); }
    var k := Retained(|ranked|, maxSize, 0);
    assert SumCounts(ranked[..k]) <= numWords by { SumCountsPrefix(ranked, k); }
    Tabulate(ranked[..k], numWords, numLines)
  }

  /**
    What the constructor builds from the lines of the corpus, the requested
    size, the tokenizer and the lower-casing.
   */
  ghost function Build(lines: seq<string>, maxSize: Unsigned, split: string -> seq<string>, lower: string -> string): Table {
    var tokens := Tokens(lines, split, lower);
    assert MapSum(Count(tokens)) == |tokens| by { CountTotal(tokens); }
    Assign(Count(tokens), maxSize, |tokens|, |ContentLines(lines)|)
  }

  lemma WordsPrefix(es: seq<Entry>, i: nat)
    requires i < |es|
    ensures Words(es[..i + 1]) == Words(es[..i]) + [es[i].word]
  {
    assert es[..i + 1][..i] == es[..i];
  }

  lemma CountsPrefix(es: seq<Entry>, i: nat)
    requires i < |es|
    ensures Counts(es[..i + 1]) == Counts(es[..i]) + [es[i].count]
  {
    assert es[..i + 1][..i] == es[..i];
  }

  lemma SumCountsStep(es: seq<Entry>, i: nat)
    requires i < |es|
    ensures SumCounts(es[..i + 1]) == SumCounts(es[..i]) + es[i].count
  {
    assert es[..i + 1][..i] == es[..i];
  }

  lemma IdMapPrefix(es: seq<Entry>, i: nat)
    requires i < |es|
    ensures IdMap(Words(es[..i + 1])) == IdMap(Words(es[..i]))[es[i].word := 3 + i]
  {
    WordsPrefix(es, i);
    var ws := Words(es[..i + 1]);
    assert ws[..i] == Words(es[..i]);
  }

  /** Slot 0 loses the new count; the other slots grow by it. */
  lemma SlotsPrefix(es: seq<Entry>, i: nat, numWords: nat, numLines: nat)
    requires i < |es|
    requires SumCounts(es[..i + 1]) <= numWords
    ensures SumCounts(es[..i]) <= numWords
    ensures var fs := Slots(es[..i], numWords, numLines);
      es[i].count <= fs[0] && Slots(es[..i + 1], numWords, numLines) == (fs + [es[i].count])[0 := fs[0] - es[i].count]
  {
    SumCountsStep(es, i);
    CountsPrefix(es, i);
    var c, cs := es[i].count, Counts(es[..i]);
    var lhs := Slots(es[..i + 1], numWords, numLines);
    var rhs := (Slots(es[..i], numWords, numLines) + [c])[0 := numWords - SumCounts(es[..i]) - c];
    assert |lhs| == |rhs|;
    forall k | 0 <= k < |lhs| ensures lhs[k] == rhs[k] {
      if 3 <= k < |lhs| - 1 {
        assert lhs[k] == cs[k - 3];
      }
    }
  }

  /** What every constructed table satisfies, whatever the corpus. */
  ghost predicate WellFormed(t: Table) {
    && |t.frequencies| == |t.numToWords| >= 3
    && t.numToWords[..3] == Reserved
    && t.frequencies[1] == t.frequencies[2]
    && t.frequencies[0] + Sum(t.frequencies[3..]) == t.numWords
    && (forall w | w in t.wordToNums ::
          t.wordToNums[w] < |t.numToWords| && t.numToWords[t.wordToNums[w]] == w)
    && (forall i | 0 <= i < |t.numToWords| :: t.numToWords[i] in t.wordToNums)
    && (forall i, j | 3 <= i < j < |t.numToWords| ::
          Before(Entry(t.frequencies[i], t.numToWords[i]), Entry(t.frequencies[j], t.numToWords[j])))
  }

  /**
    The assignment loop of the constructor: append each ranked entry as the
    next id, take its count out of slot 0, and stop once `Bound(maxSize)` ids
    exist.
   */
  method AssignIds(ranked: seq<Entry>, maxSize: Unsigned, numWords: nat, numLines: nat) returns (t: Table)
    requires SumCounts(ranked) <= numWords
    ensures var k := Retained(|ranked|, maxSize, 0);
      SumCounts(ranked[..k]) <= numWords && t == Tabulate(ranked[..k], numWords, numLines)
  {
    var frequencies: seq<nat> := [numWords, numLines, numLines];
    var numToWords := Reserved;
    var wordToNums: map<string, nat> := ReservedIds;
    var numKindOfWords: nat := 3;
    ghost var k := Retained(|ranked|, maxSize, 0);
    var i := 0;
    assert ranked[..0] == [];
    while i < |ranked|
      invariant i <= |ranked| && numKindOfWords == 3 + i == |frequencies|
      invariant Retained(|ranked|, maxSize, i) == k
      invariant SumCounts(ranked[..i]) <= numWords
      invariant frequencies == Slots(ranked[..i], numWords, numLines)
      invariant numToWords == Reserved + Words(ranked[..i])
      invariant wordToNums == IdMap(Words(ranked[..i]))
    {
      var f := ranked[i];
      SumCountsPrefix(ranked, i + 1);
      SlotsPrefix(ranked, i, numWords, numLines);
      WordsPrefix(ranked, i);
      IdMapPrefix(ranked, i);
      frequencies := frequencies + [f.count];
      frequencies := frequencies[0 := frequencies[0] - f.count];
      numToWords := numToWords + [f.word];
      wordToNums := wordToNums[f.word := numKindOfWords];
      numKindOfWords := numKindOfWords + 1;
      i := i + 1;
      if |frequencies| >= Bound(maxSize) {
        assert k == i;
        break;
      }
    }
    assert i == k;
    t := Table(frequencies, numToWords, wordToNums, numWords);
  }

  lemma {:induction false} WordsAt(es: seq<Entry>)
    ensures forall i | 0 <= i < |es| :: Words(es)[i] == es[i].word
  {
    if es != [] {
      WordsAt(es[..|es| - 1]);
    }
  }

  lemma {:induction false} CountsAt(es: seq<Entry>)
    ensures forall i | 0 <= i < |es| :: Counts(es)[i] == es[i].count
  {
    if es != [] {
      CountsAt(es[..|es| - 1]);
    }
  }

  /** The counts of the entries add up to their total. */
  lemma {:induction false} SumOfCounts(es: seq<Entry>)
    ensures Sum(Counts(es)) == SumCounts(es)
  {
    if es != [] {
      SumOfCounts(es[..|es| - 1]);
      var cs := Counts(es);
      assert cs[..|cs| - 1] == Counts(es[..|es| - 1]);
    }
  }

  /**
    Whatever the words, `word_to_nums_` holds the reserved names and the words,
    and each key's id is a position whose word is that key.
   */
  lemma {:induction false} IdMapSound(ws: seq<string>)
    ensures forall w :: w in IdMap(ws) <==> w in Reserved || w in ws
    ensures forall w | w in IdMap(ws) :: IdMap(ws)[w] < 3 + |ws| && (Reserved + ws)[IdMap(ws)[w]] == w
  {
    if ws != [] {
      var init, last := ws[..|ws| - 1], ws[|ws| - 1];
      IdMapSound(init);
      assert ws == init + [last];
      forall w | w in IdMap(ws) ensures IdMap(ws)[w] < 3 + |ws| && (Reserved + ws)[IdMap(ws)[w]] == w {
        if w != last {
          assert (Reserved + ws)[IdMap(init)[w]] == (Reserved + init)[IdMap(init)[w]];
        }
      }
    }
  }

  /**
    When the words are distinct and none is reserved, every position keeps
    its own id and the map has as many keys as there are ids.
   */
  lemma {:induction false} IdMapInjective(ws: seq<string>)
    requires forall i, j | 0 <= i < j < |ws| :: ws[i] != ws[j]
    requires forall i | 0 <= i < |ws| :: ws[i] !in Reserved
    ensures |IdMap(ws)| == 3 + |ws|
    ensures forall i | 0 <= i < 3 + |ws| :: (Reserved + ws)[i] in IdMap(ws) && IdMap(ws)[(Reserved + ws)[i]] == i
  {
    if ws != [] {
      var init, last := ws[..|ws| - 1], ws[|ws| - 1];
      assert ws == init + [last];
      IdMapInjective(init);
      assert last !in init;
      IdMapSnoc(init, last);
    }
  }

  /** One more word, new and not reserved, keeps every earlier id and takes the next one. */
  lemma IdMapSnoc(init: seq<string>, last: string)
    requires last !in Reserved && last !in init
    requires |IdMap(init)| == 3 + |init|
    requires forall i | 0 <= i < 3 + |init| :: (Reserved + init)[i] in IdMap(init) && IdMap(init)[(Reserved + init)[i]] == i
    ensures var ws := init + [last];
      && |IdMap(ws)| == 3 + |ws|
      && forall i | 0 <= i < 3 + |ws| :: (Reserved + ws)[i] in IdMap(ws) && IdMap(ws)[(Reserved + ws)[i]] == i
  {
    var ws := init + [last];
    assert ws[..|ws| - 1] == init;
    var before, all, prior := IdMap(init), Reserved + ws, Reserved + init;
    assert IdMap(ws) == before[last := 3 + |init|];
    IdMapSound(init);
    assert last !in before;
    assert all == prior + [last];
    forall i | 0 <= i < 3 + |ws| ensures all[i] in IdMap(ws) && IdMap(ws)[all[i]] == i {
      if i < 3 + |init| {
        assert all[i] == prior[i];
      }
    }
  }

  /** A table built from `kept`: the reserved slots first, then one id per entry. */
  lemma TabulateShape(kept: seq<Entry>, numWords: nat, numLines: nat)
    requires SumCounts(kept) <= numWords
    ensures var t := Tabulate(kept, numWords, numLines);
      && |t.frequencies| == |t.numToWords| == 3 + |kept|
      && t.numToWords[..3] == Reserved
      && t.frequencies[0] == numWords - SumCounts(kept)
      && t.frequencies[1] == t.frequencies[2] == numLines
      && Sum(t.frequencies[3..]) == SumCounts(kept)
  {
    var t := Tabulate(kept, numWords, numLines);
    SumOfCounts(kept);
    assert t.frequencies[3..] == Counts(kept);
  }

  /** The ids of a table built from `kept` after the reserved ones are `kept`, in order. */
  lemma TabulateAt(kept: seq<Entry>, numWords: nat, numLines: nat)
    requires SumCounts(kept) <= numWords
    ensures var t := Tabulate(kept, numWords, numLines);
      && |t.frequencies| == |t.numToWords| == 3 + |kept|
      && t.numToWords[3..] == Words(kept)
      && forall i | 0 <= i < |kept| :: t.frequencies[3 + i] == kept[i].count && t.numToWords[3 + i] == kept[i].word
  {
    var t := Tabulate(kept, numWords, numLines);
    WordsAt(kept);
    CountsAt(kept);
    assert t.frequencies[3..] == Counts(kept);
  }

  /** Ids 3 on of a table built from `kept` hold the entries of `kept`, in order. */
  lemma TabulateEntries(kept: seq<Entry>, numWords: nat, numLines: nat)
    requires SumCounts(kept) <= numWords
    ensures var t := Tabulate(kept, numWords, numLines);
      && |t.frequencies| == |t.numToWords| == 3 + |kept|
      && forall i | 3 <= i < 3 + |kept| :: Entry(t.frequencies[i], t.numToWords[i]) == kept[i - 3]
  {
    var t := Tabulate(kept, numWords, numLines);
    TabulateAt(kept, numWords, numLines);
    forall i | 3 <= i < 3 + |kept| ensures Entry(t.frequencies[i], t.numToWords[i]) == kept[i - 3] {
      assert t.frequencies[3 + (i - 3)] == kept[i - 3].count;
    }
  }

  /** Every table the constructor can build is well formed. */
  lemma TabulateWellFormed(kept: seq<Entry>, numWords: nat, numLines: nat)
    requires SumCounts(kept) <= numWords
    requires Sorted(kept)
    ensures WellFormed(Tabulate(kept, numWords, numLines))
  {
    var t := Tabulate(kept, numWords, numLines);
    var fs, ws, ids := t.frequencies, t.numToWords, t.wordToNums;
    TabulateShape(kept, numWords, numLines);
    TabulateEntries(kept, numWords, numLines);
    IdMapSound(Words(kept));
    assert ws == Reserved + Words(kept) && ids == IdMap(Words(kept));
    assert |fs| == |ws| >= 3;
    assert ws[..3] == Reserved;
    assert fs[1] == fs[2];
    assert fs[0] + Sum(fs[3..]) == t.numWords;
    assert forall w | w in ids :: ids[w] < |ws| && ws[ids[w]] == w;
    forall i | 0 <= i < |ws| ensures ws[i] in ids {
      if i >= 3 {
        assert ws[i] == Words(kept)[i - 3];
      }
    }
    forall i, j | 3 <= i < j < |ws| ensures Before(Entry(fs[i], ws[i]), Entry(fs[j], ws[j])) {
      assert Entry(fs[i], ws[i]) == kept[i - 3];
      assert Entry(fs[j], ws[j]) == kept[j - 3];
    }
  }

  /**
    The stop rule in closed form: one more than already appended, and
    otherwise `min(n, maxSize)`, or just the one more once `size + 3` wraps.
   */
  lemma {:induction false} RetainedClosedForm(n: nat, maxSize: Unsigned, appended: nat)
    requires appended <= n
    ensures Retained(n, maxSize, appended) == if appended == n then n else Max(appended + 1, Min(n, Cap(maxSize)))
    decreases n - appended
  {
    BoundWraps(maxSize);
    if appended < n && appended + 1 < Cap(maxSize) {
      RetainedClosedForm(n, maxSize, appended + 1);
    }
  }

  /**
    From an empty table the loop keeps `min(n, maxSize)` entries, but at
    least one when there is any; a size whose `size + 3` wraps keeps one.
   */
  lemma RetainedFromStart(n: nat, maxSize: Unsigned)
    ensures Retained(n, maxSize, 0) == Min(n, Max(Cap(maxSize), 1))
    ensures maxSize as int + 3 < 0x1_0000_0000 ==> Retained(n, maxSize, 0) == Min(n, Max(maxSize as nat, 1))
    ensures maxSize as int + 3 >= 0x1_0000_0000 ==> Retained(n, maxSize, 0) == Min(n, 1)
  {
    RetainedClosedForm(n, maxSize, 0);
  }

  /** The largest size keeps one of two entries where `min(2, size)` would be two. */
  lemma LargestSizeRetainsOne()
    ensures Retained(2, 0xFFFF_FFFF, 0) == 1
  {
    RetainedFromStart(2, 0xFFFF_FFFF);
  }

  /** `Assign` is the table of the first `Retained` ranked entries. */
  lemma AssignUnfold(m: map<string, nat>, maxSize: Unsigned, numWords: nat, numLines: nat)
    requires MapSum(m) <= numWords
    ensures var ranked := Ranked(m);
      var k := Retained(|ranked|, maxSize, 0);
      && |ranked| == |m|
      && SumCounts(ranked[..k]) <= numWords
      && Assign(m, maxSize, numWords, numLines) == Tabulate(ranked[..k], numWords, numLines)
  {
    var ranked := Ranked(m);
    RepresentsTotals(ranked, m);
    SumCountsPrefix(ranked, Retained(|ranked|, maxSize, 0));
  }

  lemma AssignWellFormed(m: map<string, nat>, maxSize: Unsigned, numWords: nat, numLines: nat)
    requires MapSum(m) <= numWords
    ensures WellFormed(Assign(m, maxSize, numWords, numLines))
  {
    var ranked := Ranked(m);
    var k := Retained(|ranked|, maxSize, 0);
    AssignUnfold(m, maxSize, numWords, numLines);
    SortedPrefix(ranked, k);
    TabulateWellFormed(ranked[..k], numWords, numLines);
  }

  /** The reserved slots and the number of ids of an assigned table. */
  lemma AssignShape(m: map<string, nat>, maxSize: Unsigned, numWords: nat, numLines: nat)
    requires MapSum(m) <= numWords
    ensures var t := Assign(m, maxSize, numWords, numLines);
      && |t.frequencies| == |t.numToWords| == 3 + Min(|m|, Max(Cap(maxSize), 1))
      && t.numToWords[..3] == Reserved
      && t.numWords == numWords
      && t.frequencies[1] == t.frequencies[2] == numLines
      && t.frequencies[0] + Sum(t.frequencies[3..]) == numWords
  {
    var ranked := Ranked(m);
    var k := Retained(|ranked|, maxSize, 0);
    AssignUnfold(m, maxSize, numWords, numLines);
    TabulateShape(ranked[..k], numWords, numLines);
    RetainedFromStart(|ranked|, maxSize);
  }

  /**
    Slots `3..` holding a prefix of a sorted listing of `m`: their words are
    keys of `m` with their counts, and each ranks before every key left out.
   */
  lemma SlotsRankFirst(ranked: seq<Entry>, m: map<string, nat>, k: nat, fs: seq<nat>, ws: seq<string>)
    requires Represents(ranked, m) && Sorted(ranked) && k <= |ranked|
    requires |fs| == |ws| == 3 + k
    requires forall i | 0 <= i < k :: fs[3 + i] == ranked[i].count && ws[3 + i] == ranked[i].word
    ensures forall i | 3 <= i < |ws| :: ws[i] in m && fs[i] == m[ws[i]]
    ensures forall w | w in m && w !in ws[3..] ::
      forall i | 3 <= i < |ws| :: Before(Entry(fs[i], ws[i]), Entry(m[w], w))
  {
    forall i | 3 <= i < |ws| ensures Entry(fs[i], ws[i]) == ranked[i - 3] && ranked[i - 3] in ranked {
      assert fs[3 + (i - 3)] == ranked[i - 3].count;
    }
    forall w | w in m && w !in ws[3..]
      ensures forall i | 3 <= i < |ws| :: Before(Entry(fs[i], ws[i]), Entry(m[w], w))
    {
      assert Entry(m[w], w) in ranked;
      var j :| 0 <= j < |ranked| && ranked[j] == Entry(m[w], w);
      assert forall l | 0 <= l < k :: ws[3..][l] == ranked[l].word;
      assert j >= k;
    }
  }

  /**
    The table of a prefix of a sorted listing of `m`: its words are keys of
    `m` with their counts, and each ranks before every key left out.
   */
  lemma TabulateKeepsTopRanked(ranked: seq<Entry>, m: map<string, nat>, k: nat, numWords: nat, numLines: nat)
    requires Represents(ranked, m) && Sorted(ranked) && k <= |ranked|
    requires SumCounts(ranked[..k]) <= numWords
    ensures var t := Tabulate(ranked[..k], numWords, numLines);
      && (forall i | 3 <= i < |t.numToWords| :: t.numToWords[i] in m && t.frequencies[i] == m[t.numToWords[i]])
      && (forall w | w in m && w !in t.numToWords[3..] ::
            forall i | 3 <= i < |t.numToWords| :: Before(Entry(t.frequencies[i], t.numToWords[i]), Entry(m[w], w)))
  {
    var kept := ranked[..k];
    var t := Tabulate(kept, numWords, numLines);
    var fs, ws := t.frequencies, t.numToWords;
    TabulateEntries(kept, numWords, numLines);
    forall i | 0 <= i < k ensures fs[3 + i] == ranked[i].count && ws[3 + i] == ranked[i].word {
      assert Entry(fs[3 + i], ws[3 + i]) == kept[i];
      assert kept[i] == ranked[i];
    }
    SlotsRankFirst(ranked, m, k, fs, ws);
  }

  /**
    The kept words of an assigned table are keys of `m` with their counts,
    and each ranks before every key that was not kept.
   */
  lemma AssignKeepsTopRanked(m: map<string, nat>, maxSize: Unsigned, numWords: nat, numLines: nat)
    requires MapSum(m) <= numWords
    ensures var t := Assign(m, maxSize, numWords, numLines);
      && (forall i | 3 <= i < |t.numToWords| :: t.numToWords[i] in m && t.frequencies[i] == m[t.numToWords[i]])
      && (forall w | w in m && w !in t.numToWords[3..] ::
            forall i | 3 <= i < |t.numToWords| :: Before(Entry(t.frequencies[i], t.numToWords[i]), Entry(m[w], w)))
  {
    var ranked := Ranked(m);
    AssignUnfold(m, maxSize, numWords, numLines);
    TabulateKeepsTopRanked(ranked, m, Retained(|ranked|, maxSize, 0), numWords, numLines);
  }

  /** A table of distinct, non-reserved words: ids and words correspond one to one. */
  lemma TabulateNoCollision(kept: seq<Entry>, numWords: nat, numLines: nat)
    requires SumCounts(kept) <= numWords
    requires DistinctWords(kept)
    requires forall i | 0 <= i < |kept| :: kept[i].word !in Reserved
    ensures var t := Tabulate(kept, numWords, numLines);
      && |t.wordToNums| == |t.numToWords|
      && forall i | 0 <= i < |t.numToWords| :: t.numToWords[i] in t.wordToNums && t.wordToNums[t.numToWords[i]] == i
  {
    WordsAt(kept);
    IdMapInjective(Words(kept));
  }

  /** With no reserved name among the keys, ids and words correspond one to one. */
  lemma AssignNoCollision(m: map<string, nat>, maxSize: Unsigned, numWords: nat, numLines: nat)
    requires MapSum(m) <= numWords
    requires forall w | w in m :: w !in Reserved
    ensures var t := Assign(m, maxSize, numWords, numLines);
      && |t.wordToNums| == |t.numToWords|
      && forall i | 0 <= i < |t.numToWords| :: t.numToWords[i] in t.wordToNums && t.wordToNums[t.numToWords[i]] == i
  {
    var ranked := Ranked(m);
    var k := Retained(|ranked|, maxSize, 0);
    AssignUnfold(m, maxSize, numWords, numLines);
    forall i | 0 <= i < k ensures ranked[..k][i].word !in Reserved {
      assert ranked[i] in ranked;
    }
    TabulateNoCollision(ranked[..k], numWords, numLines);
  }

  lemma BuildWellFormed(lines: seq<string>, maxSize: Unsigned, split: string -> seq<string>, lower: string -> string)
    ensures WellFormed(Build(lines, maxSize, split, lower))
  {
    var tokens := Tokens(lines, split, lower);
    CountTotal(tokens);
    AssignWellFormed(Count(tokens), maxSize, |tokens|, |ContentLines(lines)|);
  }

  /**
    The reserved slots and the number of ids: `<UNK>` starts from the number
    of tokens and loses every kept word's count, `<s>` and `</s>` hold the
    number of content lines, and one id is added per distinct token up to
    `Cap(maxSize)`, but at least one when there is any token (the size test
    comes after the first append).
   */
  lemma BuildShape(lines: seq<string>, maxSize: Unsigned, split: string -> seq<string>, lower: string -> string)
    ensures var t := Build(lines, maxSize, split, lower);
      var tokens := Tokens(lines, split, lower);
      && |t.frequencies| == |t.numToWords| == 3 + Min(|Count(tokens)|, Max(Cap(maxSize), 1))
      && t.numToWords[..3] == Reserved
      && t.numWords == |tokens|
      && t.frequencies[1] == t.frequencies[2] == |ContentLines(lines)|
      && t.frequencies[0] + Sum(t.frequencies[3..]) == |tokens|
  {
    var tokens := Tokens(lines, split, lower);
    CountTotal(tokens);
    AssignShape(Count(tokens), maxSize, |tokens|, |ContentLines(lines)|);
  }

  /**
    The size test follows the first append: asked for no corpus word at all,
    the constructor still keeps one when the corpus has any token.
   */
  lemma ZeroSizeKeepsOne(lines: seq<string>, split: string -> seq<string>, lower: string -> string)
    requires Tokens(lines, split, lower) != []
    ensures |Build(lines, 0, split, lower).frequencies| == 4
  {
    var tokens := Tokens(lines, split, lower);
    CountIsMultiplicity(tokens);
    assert tokens[0] in Count(tokens);
    BuildShape(lines, 0, split, lower);
  }

  /**
    For the three largest sizes `size + 3` wraps round below 3, so the loop
    stops after its first append: a corpus with any token gets four ids.
   */
  lemma WrappedSizeKeepsOne(lines: seq<string>, maxSize: Unsigned, split: string -> seq<string>, lower: string -> string)
    requires maxSize as int + 3 >= 0x1_0000_0000
    requires Tokens(lines, split, lower) != []
    ensures |Build(lines, maxSize, split, lower).frequencies| == 4
  {
    var tokens := Tokens(lines, split, lower);
    CountIsMultiplicity(tokens);
    assert tokens[0] in Count(tokens);
    BuildShape(lines, maxSize, split, lower);
  }

  /**
    The kept words: each is a token of the corpus and its count is how often
    it occurs, and each ranks before every token that was not kept.
   */
  lemma BuildKeepsTopRanked(lines: seq<string>, maxSize: Unsigned, split: string -> seq<string>, lower: string -> string)
    ensures var t := Build(lines, maxSize, split, lower);
      var tokens := Tokens(lines, split, lower);
      && (forall i | 3 <= i < |t.numToWords| ::
            t.numToWords[i] in tokens && t.frequencies[i] == multiset(tokens)[t.numToWords[i]])
      && (forall w | w in tokens && w !in t.numToWords[3..] ::
            forall i | 3 <= i < |t.numToWords| ::
              Before(Entry(t.frequencies[i], t.numToWords[i]), Entry(multiset(tokens)[w], w)))
  {
    var tokens := Tokens(lines, split, lower);
    CountTotal(tokens);
    CountIsMultiplicity(tokens);
    AssignKeepsTopRanked(Count(tokens), maxSize, |tokens|, |ContentLines(lines)|);
  }

  /**
    When no token is a reserved name, ids and words are in one-to-one
    correspondence: `word_to_nums_` has one key per id and maps each word
    back to its own id.
   */
  lemma BuildNoCollision(lines: seq<string>, maxSize: Unsigned, split: string -> seq<string>, lower: string -> string)
    requires forall w | w in Tokens(lines, split, lower) :: w !in Reserved
    ensures var t := Build(lines, maxSize, split, lower);
      && |t.wordToNums| == |t.numToWords|
      && forall i | 0 <= i < |t.numToWords| :: t.numToWords[i] in t.wordToNums && t.wordToNums[t.numToWords[i]] == i
  {
    var tokens := Tokens(lines, split, lower);
    CountTotal(tokens);
    CountIsMultiplicity(tokens);
    AssignNoCollision(Count(tokens), maxSize, |tokens|, |ContentLines(lines)|);
  }

  /** The corpus made of the single line `<s>`, which the tokenizer keeps whole. */
  lemma OneTokenCorpus(split: string -> seq<string>, lower: string -> string)
    requires split(Bos) == [Bos] && lower(Bos) == Bos
    ensures Tokens([Bos], split, lower) == [Bos]
    ensures ContentLines([Bos]) == [Bos]
    ensures Count([Bos]) == map[Bos := 1]
  {
    assert IsContent(Bos);
    assert [Bos][..0] == [] && [] + [Bos] == [Bos];
    assert Lowered([Bos], lower) == [Bos];
    LineContribution([], Bos, split, lower);
    CountSnoc([], Bos);
  }

  lemma OneTokenCount()
    ensures Count([Bos]) == map[Bos := 1]
    ensures MapSum(map[Bos := 1]) == 1
  {
    CountSnoc([], Bos);
    assert [] + [Bos] == [Bos];
    CountTotal([Bos]);
  }

  lemma OneKeyRanked()
    ensures Ranked(map[Bos := 1]) == [Entry(1, Bos)]
  {
    var m := map[Bos := 1];
    var es := [Entry(1, Bos)];
    assert Represents(es, m);
    RankedUnique(es, m);
  }

  lemma OneEntryTabulate()
    ensures SumCounts([Entry(1, Bos)]) == 1
    ensures Tabulate([Entry(1, Bos)], 1, 1) == Table([0, 1, 1, 1], [Unk, Bos, Eos, Bos], map[Unk := 0, Bos := 3, Eos := 2], 1)
  {
    var es := [Entry(1, Bos)];
    assert es[..0] == [];
    assert Words(es) == [Bos] && Counts(es) == [1];
    assert IdMap([Bos]) == ReservedIds[Bos := 3];
  }

  /** The table of the single entry `(1, "<s>")`. */
  lemma OneEntryTable(maxSize: Unsigned)
    ensures MapSum(map[Bos := 1]) == 1
    ensures Assign(map[Bos := 1], maxSize, 1, 1) == Table([0, 1, 1, 1], [Unk, Bos, Eos, Bos], map[Unk := 0, Bos := 3, Eos := 2], 1)
  {
    OneTokenCount();
    OneKeyRanked();
    OneEntryTabulate();
    assert Retained(1, maxSize, 0) == 1;
    AssignUnfold(map[Bos := 1], maxSize, 1, 1);
    assert [Entry(1, Bos)][..1] == [Entry(1, Bos)];
  }

  /**
    A corpus whose only token is `<s>`: the word is appended as id 3 and
    takes over the key `<s>`, so id 1 can no longer be reached by name and
    `word_to_nums_` has fewer keys than there are ids.
   */
  lemma ReservedCollision(maxSize: Unsigned, split: string -> seq<string>, lower: string -> string)
    requires split(Bos) == [Bos] && lower(Bos) == Bos
    ensures var t := Build([Bos], maxSize, split, lower);
      && t.numToWords == [Unk, Bos, Eos, Bos]
      && t.frequencies == [0, 1, 1, 1]
      && t.wordToNums == map[Unk := 0, Bos := 3, Eos := 2]
      && |t.wordToNums| < |t.numToWords|
  {
    OneTokenCorpus(split, lower);
    OneEntryTable(maxSize);
  }

  /** The corpus `the cat sat` / `the dog sat`, split on blanks, already lower case. */
  predicate TwoLineTokenizer(split: string -> seq<string>, lower: string -> string) {
    && split("the cat sat") == ["the", "cat", "sat"]
    && split("the dog sat") == ["the", "dog", "sat"]
    && lower("the") == "the" && lower("cat") == "cat" && lower("dog") == "dog" && lower("sat") == "sat"
  }

  /** The words of the two-line corpus and the reserved names are pairwise different. */
  lemma TwoLineWordsDistinct()
    ensures "the" != "cat" && "the" != "sat" && "the" != "dog"
    ensures "cat" != "sat" && "cat" != "dog" && "sat" != "dog"
    ensures forall w | w in ["the", "cat", "sat", "dog"] :: w != Unk && w != Bos && w != Eos
  {
    assert "the"[0] == 't' && "cat"[0] == 'c' && "sat"[0] == 's' && "dog"[0] == 'd';
    assert Unk[0] == '<' && Bos[0] == '<' && Eos[0] == '<';
  }

  lemma TwoLineTokens(split: string -> seq<string>, lower: string -> string)
    requires TwoLineTokenizer(split, lower)
    ensures Tokens(["the cat sat", "the dog sat"], split, lower) == ["the", "cat", "sat", "the", "dog", "sat"]
    ensures |ContentLines(["the cat sat", "the dog sat"])| == 2
  {
    var l1, l2 := "the cat sat", "the dog sat";
    PlainLineIsContent(l1);
    PlainLineIsContent(l2);
    LoweredFixed(split(l1), lower);
    LoweredFixed(split(l2), lower);
    TwoLineSteps(l1, l2, split, lower);
  }

  /** Two content lines contribute their lower-cased tokens and one line each. */
  lemma TwoLineSteps(l1: string, l2: string, split: string -> seq<string>, lower: string -> string)
    requires IsContent(l1) && IsContent(l2)
    ensures Tokens([l1, l2], split, lower) == Lowered(split(l1), lower) + Lowered(split(l2), lower)
    ensures ContentLines([l1, l2]) == [l1, l2]
  {
    LineContribution([], l1, split, lower);
    assert [] + [l1] == [l1];
    LineContribution([l1], l2, split, lower);
    assert [l1] + [l2] == [l1, l2];
  }

  lemma TwoLineCount()
    ensures Count(["the", "cat", "sat", "the", "dog", "sat"]) == map["the" := 2, "cat" := 1, "sat" := 2, "dog" := 1]
  {
    TwoLineWordsDistinct();
    var ts := ["the", "cat", "sat", "the", "dog", "sat"];
    assert ts[..1][..0] == [];
    assert Count(ts[..1]) == map["the" := 1];
    assert ts[..2][..1] == ts[..1];
    assert Count(ts[..2]) == map["the" := 1, "cat" := 1];
    assert ts[..3][..2] == ts[..2];
    assert Count(ts[..3]) == map["the" := 1, "cat" := 1, "sat" := 1];
    assert ts[..4][..3] == ts[..3];
    assert Count(ts[..4]) == map["the" := 2, "cat" := 1, "sat" := 1];
    assert ts[..5][..4] == ts[..4];
    assert Count(ts[..5]) == map["the" := 2, "cat" := 1, "sat" := 1, "dog" := 1];
    assert ts[..5] == ts[..|ts| - 1];
  }

  lemma TwoLineMapSum()
    ensures MapSum(map["the" := 2, "cat" := 1, "sat" := 2, "dog" := 1]) == 6
  {
    TwoLineCount();
    CountTotal(["the", "cat", "sat", "the", "dog", "sat"]);
  }

  lemma TwoLineSorted()
    ensures Sorted([Entry(2, "sat"), Entry(2, "the"), Entry(1, "cat"), Entry(1, "dog")])
  {
    assert Less("sat", "the") && Less("cat", "dog");
  }

  lemma TwoLineRepresents()
    ensures Represents([Entry(2, "sat"), Entry(2, "the"), Entry(1, "cat"), Entry(1, "dog")],
                       map["the" := 2, "cat" := 1, "sat" := 2, "dog" := 1])
  {
    TwoLineWordsDistinct();
  }

  lemma TwoLineRanked()
    ensures var m := map["the" := 2, "cat" := 1, "sat" := 2, "dog" := 1];
      Ranked(m) == [Entry(2, "sat"), Entry(2, "the"), Entry(1, "cat"), Entry(1, "dog")]
  {
    var m := map["the" := 2, "cat" := 1, "sat" := 2, "dog" := 1];
    var es := [Entry(2, "sat"), Entry(2, "the"), Entry(1, "cat"), Entry(1, "dog")];
    TwoLineSorted();
    TwoLineRepresents();
    RankedUnique(es, m);
  }

  lemma TwoLineIds()
    ensures IdMap(["sat", "the", "cat"]) == map[Unk := 0, Bos := 1, Eos := 2, "sat" := 3, "the" := 4, "cat" := 5]
  {
    var ws := ["sat", "the", "cat"];
    assert ws[..1][..0] == [];
    assert IdMap(ws[..1]) == ReservedIds["sat" := 3];
    assert ws[..2][..1] == ws[..1];
    assert IdMap(ws[..2]) == ReservedIds["sat" := 3]["the" := 4];
    assert ws[..2] == ws[..|ws| - 1];
  }

  lemma TwoLineTabulate()
    ensures var kept := [Entry(2, "sat"), Entry(2, "the"), Entry(1, "cat")];
      && SumCounts(kept) == 5
      && Tabulate(kept, 6, 2) == Table(
           [1, 2, 2, 2, 2, 1],
           [Unk, Bos, Eos, "sat", "the", "cat"],
           map[Unk := 0, Bos := 1, Eos := 2, "sat" := 3, "the" := 4, "cat" := 5],
           6)
  {
    var kept := [Entry(2, "sat"), Entry(2, "the"), Entry(1, "cat")];
    assert kept[..1][..0] == [];
    assert Words(kept[..1]) == ["sat"] && Counts(kept[..1]) == [2] && SumCounts(kept[..1]) == 2;
    assert kept[..2][..1] == kept[..1];
    assert Words(kept[..2]) == ["sat", "the"] && Counts(kept[..2]) == [2, 2] && SumCounts(kept[..2]) == 4;
    assert kept[..2] == kept[..|kept| - 1];
    assert Words(kept) == ["sat", "the", "cat"] && Counts(kept) == [2, 2, 1];
    TwoLineIds();
  }

  lemma TwoLineCut()
    ensures [Entry(2, "sat"), Entry(2, "the"), Entry(1, "cat"), Entry(1, "dog")][..3]
      == [Entry(2, "sat"), Entry(2, "the"), Entry(1, "cat")]
  {
  }

  lemma TwoLineAssign()
    ensures var m := map["the" := 2, "cat" := 1, "sat" := 2, "dog" := 1];
      && MapSum(m) == 6
      && Assign(m, 3, 6, 2) == Table(
           [1, 2, 2, 2, 2, 1],
           [Unk, Bos, Eos, "sat", "the", "cat"],
           map[Unk := 0, Bos := 1, Eos := 2, "sat" := 3, "the" := 4, "cat" := 5],
           6)
  {
    var es := [Entry(2, "sat"), Entry(2, "the"), Entry(1, "cat"), Entry(1, "dog")];
    TwoLineMapSum();
    TwoLineRanked();
    TwoLineTabulate();
    RetainedFromStart(4, 3);
    TwoLineCut();
  }

  /**
    The two-line corpus `the cat sat` / `the dog sat` with size 3: ids 3, 4
    and 5 are `sat`, `the` and `cat`; `dog` is left to `<UNK>`, whose slot
    holds 6 - (2 + 2 + 1) = 1.
   */
  lemma TwoLineExample(split: string -> seq<string>, lower: string -> string)
    requires TwoLineTokenizer(split, lower)
    ensures Build(["the cat sat", "the dog sat"], 3, split, lower) == Table(
      [1, 2, 2, 2, 2, 1],
      [Unk, Bos, Eos, "sat", "the", "cat"],
      map[Unk := 0, Bos := 1, Eos := 2, "sat" := 3, "the" := 4, "cat" := 5],
      6)
  {
    TwoLineTokens(split, lower);
    TwoLineCount();
    TwoLineAssign();
  }

  /**
    The body of the constructor: count the corpus, copy the frequency map
    into a list, sort it and assign ids.
   */
  method BuildTable(lines: seq<string>, maxSize: Unsigned, split: string -> seq<string>, lower: string -> string)
    returns (t: Table)
    ensures t == Build(lines, maxSize, split, lower)
  {
    var frequency, numLines, numWords := CountCorpus(lines, split, lower);
    var listed := Materialize(frequency);
    SortRepresents(listed, frequency);
    var ranked := Sort(listed);
    RankedUnique(ranked, frequency);
    RepresentsTotals(ranked, frequency);
    t := AssignIds(ranked, maxSize, numWords, numLines);
    AssignUnfold(frequency, maxSize, numWords, numLines);
  }

  /**
    `Vocab`: the table built from a corpus, with lookups in both directions.
    `size` is the number of ids, `frequencies_.size()` at the end of the
    constructor.
   */
  class Vocab {
    // Nothing changes the tables once the constructor has built them.
    const frequencies: seq<nat>
    const numToWords: seq<string>
    const wordToNums: map<string, nat>
    const size: nat
    const numWords: nat

    ghost function State(): Table
    {
      Table(frequencies, numToWords, wordToNums, numWords)
    }

    ghost predicate Valid()
    {
      size == |frequencies| && WellFormed(State())
    }

    /**
      Count the corpus, rank the frequency map and assign ids, keeping at
      most `Cap(maxSize)` corpus words (at least one when the corpus has any).
     */
    constructor (lines: seq<string>, maxSize: Unsigned, split: string -> seq<string>, lower: string -> string)
      ensures Valid()
      ensures State() == Build(lines, maxSize, split, lower)
    {
      var t := BuildTable(lines, maxSize, split, lower);
      BuildWellFormed(lines, maxSize, split, lower);
      frequencies, numToWords, wordToNums, numWords := t.frequencies, t.numToWords, t.wordToNums, t.numWords;
      size := |t.frequencies|;
      new;
      assert State() == t;
    }

    /** `frequency(id)`: the guard lets `id == size` through, which reads past the end. */
    function Frequency(id: nat): (r: Lookup<nat>)
      requires Valid()
      ensures id < size ==> r == Found(frequencies[id])
      ensures id == size ==> r == Failed(PastEnd)
      ensures id > size ==> r == Failed(RangeError)
    {
      if id > |frequencies| then Failed(RangeError)
      else if id == |frequencies| then Failed(PastEnd)
      else Found(frequencies[id])
    }

    /** `word(id)`: the same guard as `frequency`, on `num_to_words_`. */
    function Word(id: nat): (r: Lookup<string>)
      requires Valid()
      ensures id < size ==> r == Found(numToWords[id])
      ensures id == size ==> r == Failed(PastEnd)
      ensures id > size ==> r == Failed(RangeError)
    {
      if id > |numToWords| then Failed(RangeError)
      else if id == |numToWords| then Failed(PastEnd)
      else Found(numToWords[id])
    }

    /** `id(word)`: an unknown word gets the id of `<UNK>`. */
    function Id(w: string): (r: nat)
      requires Valid()
      ensures r < size
      ensures w in wordToNums ==> numToWords[r] == w
      ensures w !in wordToNums ==> r == 0
    {
      if w in wordToNums then wordToNums[w] else 0
    }

    /** From id 3 on, counts never increase, and equal counts come in ascending word order. */
    lemma RankOrder(i: nat, j: nat)
      requires Valid() && 3 <= i < j < size
      ensures frequencies[i] >= frequencies[j]
      ensures frequencies[i] == frequencies[j] ==> Less(numToWords[i], numToWords[j])
    {
      assert Before(Entry(frequencies[i], numToWords[i]), Entry(frequencies[j], numToWords[j]));
    }

    /** The id of a known word names that word. */
    lemma IdRoundTrip(w: string)
      requires Valid() && w in wordToNums
      ensures Word(Id(w)) == Found(w)
    {
    }

    /** An unknown word reads back as `<UNK>`, whose count is the uncovered mass. */
    lemma UnknownWord(w: string)
      requires Valid() && w !in wordToNums
      ensures Word(Id(w)) == Found(Unk)
      ensures Frequency(Id(w)) == Found(numWords - Sum(frequencies[3..]))
    {
      assert numToWords[..3][0] == Unk;
    }

    /**
      `ConvertToWords(ids)`: the word of each id in order; the first id that
      `word` does not answer ends the conversion with its fault.
     */
    method ConvertToWords(ids: seq<nat>) returns (r: Lookup<seq<string>>)
      requires Valid()
      ensures r.Found? <==> forall i | 0 <= i < |ids| :: ids[i] < size
      ensures r.Found? ==> |r.value| == |ids| && forall i | 0 <= i < |ids| :: Word(ids[i]) == Found(r.value[i])
      ensures r.Failed? ==> exists j | 0 <= j < |ids| ::
        (forall i | 0 <= i < j :: ids[i] < size) && Word(ids[j]) == Failed(r.fault)
    {
      var words: seq<string> := [];
      for i := 0 to |ids|
        invariant |words| == i
        invariant forall j | 0 <= j < i :: ids[j] < size && Word(ids[j]) == Found(words[j])
      {
        var w := Word(ids[i]);
        if w.Failed? {
          return Failed(w.fault);
        }
        words := words + [w.value];
      }
      return Found(words);
    }

    /** `ConvertToIds(words)`: the id of each word in order. */
    method ConvertToIds(words: seq<string>) returns (ids: seq<nat>)
      requires Valid()
      ensures |ids| == |words|
      ensures forall i | 0 <= i < |words| :: ids[i] == Id(words[i]) && ids[i] < size
    {
      ids := [];
      for i := 0 to |words|
        invariant |ids| == i
        invariant forall j | 0 <= j < i :: ids[j] == Id(words[j]) && ids[j] < size
      {
        ids := ids + [Id(words[i])];
      }
    }
  }
}
