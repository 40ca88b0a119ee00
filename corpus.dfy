/**
  The counting pass of the `Vocab` constructor (mse/vocab.cc, lines 24-50):
  which lines are content, the stream of lower-cased tokens they produce, the
  frequency map built from that stream, and the two corpus counters.

  The corpus is the sequence of lines of all files in the order the directory
  walk visits them. The tokenizer (`RawtextSplitter::Split`) and the
  lower-casing (`to_lower_copy`) are parameters.
 */
module Corpus {
  import opened Strings

  /** A line the counting pass reads: not empty and not a `<doc`/`</doc` marker. */
  predicate IsContent(line: string) {
    line != [] && !StartsWith(line, "<doc") && !StartsWith(line, "</doc")
  }

  /** The content lines of `lines`, in order. */
  function ContentLines(lines: seq<string>): seq<string> {
    if lines == [] then []
    else
      var last := lines[|lines| - 1];
      ContentLines(lines[..|lines| - 1]) + (if IsContent(last) then [last] else [])
  }

  /** The tokens of one line after lower-casing, in order. */
  function Lowered(tokens: seq<string>, lower: string -> string): (r: seq<string>)
    ensures |r| == |tokens|
  {
    if tokens == [] then []
    else Lowered(tokens[..|tokens| - 1], lower) + [lower(tokens[|tokens| - 1])]
  }

  lemma LoweredPrefix(tokens: seq<string>, j: nat, lower: string -> string)
    requires j < |tokens|
    ensures Lowered(tokens[..j + 1], lower) == Lowered(tokens[..j], lower) + [lower(tokens[j])]
  {
    assert tokens[..j + 1][..j] == tokens[..j];
  }

  /** Every lower-cased token of every content line, in corpus order. */
  function Tokens(lines: seq<string>, split: string -> seq<string>, lower: string -> string): seq<string> {
    if lines == [] then []
    else
      var last := lines[|lines| - 1];
      Tokens(lines[..|lines| - 1], split, lower)
        + (if IsContent(last) then Lowered(split(last), lower) else [])
  }

  /** `++m[w]` on a `std::map`: a missing key starts at zero. */
  function Inc(m: map<string, nat>, w: string): (r: map<string, nat>)
    ensures r.Keys == m.Keys + {w}
    ensures w in m ==> r[w] == m[w] + 1
    ensures w !in m ==> r[w] == 1
    ensures forall k | k in m && k != w :: r[k] == m[k]
  {
    m[w := (if w in m then m[w] else 0) + 1]
  }

  /** The frequency map after incrementing once per token of `tokens`. */
  function Count(tokens: seq<string>): map<string, nat> {
    if tokens == [] then map[]
    else Inc(Count(tokens[..|tokens| - 1]), tokens[|tokens| - 1])
  }

  /** Sum of `m[k]` over the keys `keys`. */
  ghost function SumOver(m: map<string, nat>, keys: set<string>): nat
    requires keys <= m.Keys
    decreases keys
  {
    if keys == {} then 0
    else
      var k :| k in keys;
      m[k] + SumOver(m, keys - {k})
  }

  /** Sum of all counts in a frequency map. */
  ghost function MapSum(m: map<string, nat>): nat {
    SumOver(m, m.Keys)
  }

  /** Any key can be taken out of the sum first. */
  lemma {:induction false} SumOverRemove(m: map<string, nat>, keys: set<string>, k: string)
    requires keys <= m.Keys && k in keys
    ensures SumOver(m, keys) == m[k] + SumOver(m, keys - {k})
    decreases keys
  {
    var j :| j in keys && SumOver(m, keys) == m[j] + SumOver(m, keys - {j});
    if j != k {
      SumOverRemove(m, keys - {j}, k);
      SumOverRemove(m, keys - {k}, j);
      assert keys - {j} - {k} == keys - {k} - {j};
    }
  }

  /** Two maps that agree on `keys` have the same sum over `keys`. */
  lemma {:induction false} SumOverAgree(m1: map<string, nat>, m2: map<string, nat>, keys: set<string>)
    requires keys <= m1.Keys && keys <= m2.Keys
    requires forall k | k in keys :: m1[k] == m2[k]
    ensures SumOver(m1, keys) == SumOver(m2, keys)
    decreases keys
  {
    if keys != {} {
      var j :| j in keys && SumOver(m1, keys) == m1[j] + SumOver(m1, keys - {j});
      SumOverRemove(m2, keys, j);
      SumOverAgree(m1, m2, keys - {j});
    }
  }

  /** One increment adds exactly one to the total. */
  lemma IncSum(m: map<string, nat>, w: string)
    ensures MapSum(Inc(m, w)) == MapSum(m) + 1
  {
    var m' := Inc(m, w);
    if w in m {
      assert m'.Keys == m.Keys;
      SumOverRemove(m', m.Keys, w);
      SumOverAgree(m', m, m.Keys - {w});
      SumOverRemove(m, m.Keys, w);
    } else {
      assert m'.Keys == m.Keys + {w};
      SumOverRemove(m', m'.Keys, w);
      assert m'.Keys - {w} == m.Keys;
      SumOverAgree(m', m, m.Keys);
    }
  }

  /** The counts in the frequency map add up to the number of tokens counted. */
  lemma {:induction false} CountTotal(tokens: seq<string>)
    ensures MapSum(Count(tokens)) == |tokens|
  {
    if tokens != [] {
      CountTotal(tokens[..|tokens| - 1]);
      IncSum(Count(tokens[..|tokens| - 1]), tokens[|tokens| - 1]);
    } else {
      assert Count(tokens).Keys == {};
    }
  }

  /** Every count in the frequency map is at least one and at most the number of tokens. */
  lemma {:induction false} CountBounds(tokens: seq<string>)
    ensures forall w | w in Count(tokens) :: 1 <= Count(tokens)[w] <= |tokens|
  {
    if tokens != [] {
      CountBounds(tokens[..|tokens| - 1]);
    }
  }

  /**
    The frequency map has exactly the tokens as keys, and each key's count is
    the number of times it occurs.
   */
  lemma {:induction false} CountIsMultiplicity(tokens: seq<string>)
    ensures forall w :: w in Count(tokens) <==> w in tokens
    ensures forall w | w in Count(tokens) :: Count(tokens)[w] == multiset(tokens)[w]
  {
    if tokens != [] {
      var init := tokens[..|tokens| - 1];
      CountIsMultiplicity(init);
      assert tokens == init + [tokens[|tokens| - 1]];
    }
  }

  /**
    A line changes the token stream and the line count exactly when it is
    content: it then appends its lower-cased tokens and one line; otherwise
    both stay as they were.
   */
  lemma LineContribution(lines: seq<string>, line: string, split: string -> seq<string>, lower: string -> string)
    ensures IsContent(line) ==>
      Tokens(lines + [line], split, lower) == Tokens(lines, split, lower) + Lowered(split(line), lower)
      && ContentLines(lines + [line]) == ContentLines(lines) + [line]
    ensures !IsContent(line) ==>
      Tokens(lines + [line], split, lower) == Tokens(lines, split, lower)
      && ContentLines(lines + [line]) == ContentLines(lines)
  {
    assert (lines + [line])[..|lines|] == lines;
  }

  /** The filter keeps at most every line, and each line it keeps is a content line of the input. */
  lemma {:induction false} ContentLinesAreContent(lines: seq<string>)
    ensures |ContentLines(lines)| <= |lines|
    ensures forall i | 0 <= i < |ContentLines(lines)| :: IsContent(ContentLines(lines)[i]) && ContentLines(lines)[i] in lines
  {
    if lines != [] {
      var init := lines[..|lines| - 1];
      ContentLinesAreContent(init);
      assert forall l | l in init :: l in lines;
    }
  }

  /** Empty lines and lines opening or closing a `<doc` block are skipped. */
  lemma MarkersAreSkipped(rest: string)
    ensures !IsContent("")
    ensures !IsContent("<doc" + rest) && !IsContent("</doc" + rest)
  {
    assert ("<doc" + rest)[..4] == "<doc";
    assert ("</doc" + rest)[..5] == "</doc";
  }

  /** Lower-casing tokens that are already lower case changes nothing. */
  lemma {:induction false} LoweredFixed(tokens: seq<string>, lower: string -> string)
    requires forall i | 0 <= i < |tokens| :: lower(tokens[i]) == tokens[i]
    ensures Lowered(tokens, lower) == tokens
  {
    if tokens != [] {
      LoweredFixed(tokens[..|tokens| - 1], lower);
    }
  }

  /** A non-empty line that does not start with `<` is always content. */
  lemma PlainLineIsContent(line: string)
    requires line != [] && line[0] != '<'
    ensures IsContent(line)
  {
    assert !StartsWith(line, "<doc") by {
      if |line| >= 4 { assert line[..4][0] != "<doc"[0]; }
    }
    assert !StartsWith(line, "</doc") by {
      if |line| >= 5 { assert line[..5][0] != "</doc"[0]; }
    }
  }

  /** Counting one more token is one increment. */
  lemma CountSnoc(tokens: seq<string>, w: string)
    ensures Count(tokens + [w]) == Inc(Count(tokens), w)
  {
    assert (tokens + [w])[..|tokens|] == tokens;
  }

  /**
    The inner counting loop of the constructor: `++frequency[lower(t)]` for
    each token `t` of one line.
   */
  method CountLine(frequency: map<string, nat>, ghost before: seq<string>, tokens: seq<string>, lower: string -> string)
    returns (updated: map<string, nat>)
    requires frequency == Count(before)
    ensures updated == Count(before + Lowered(tokens, lower))
  {
    updated := frequency;
    assert before + Lowered(tokens[..0], lower) == before;
    for j := 0 to |tokens|
      invariant updated == Count(before + Lowered(tokens[..j], lower))
    {
      var w := lower(tokens[j]);
      ghost var done := before + Lowered(tokens[..j], lower);
      LoweredPrefix(tokens, j, lower);
      assert before + Lowered(tokens[..j + 1], lower) == done + [w];
      CountSnoc(done, w);
      updated := Inc(updated, w);
    }
    assert tokens[..|tokens|] == tokens;
  }

  /**
    The counting loops of the constructor: for each content line, increment
    the count of each lower-cased token, then add one line and the line's
    token count.
   */
  method CountCorpus(lines: seq<string>, split: string -> seq<string>, lower: string -> string)
    returns (frequency: map<string, nat>, numLines: nat, numWords: nat)
    ensures frequency == Count(Tokens(lines, split, lower))
    ensures numLines == |ContentLines(lines)|
    ensures numWords == |Tokens(lines, split, lower)|
    ensures MapSum(frequency) == numWords
  {
    frequency, numLines, numWords := map[], 0, 0;
    for i := 0 to |lines|
      invariant frequency == Count(Tokens(lines[..i], split, lower))
      invariant numLines == |ContentLines(lines[..i])|
      invariant numWords == |Tokens(lines[..i], split, lower)|
    {
      var line := lines[i];
      assert lines[..i + 1] == lines[..i] + [line];
      LineContribution(lines[..i], line, split, lower);
      if !IsContent(line) {
        continue;
      }
      var tokens := split(line);
      frequency := CountLine(frequency, Tokens(lines[..i], split, lower), tokens, lower);
      numLines := numLines + 1;
      numWords := numWords + |tokens|;
    }
    assert lines[..|lines|] == lines;
    CountTotal(Tokens(lines, split, lower));
  }
}
