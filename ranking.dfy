/**
  The ranking step of the `Vocab` constructor (mse/vocab.cc, lines 52-61):
  the frequency map becomes a list of (count, word) entries, which is sorted
  by count descending and then by word ascending.
 */
module Ranking {
  import opened Strings
  import opened Corpus

  /** One element of the list the constructor sorts: `pair<unsigned, string>`. */
  datatype Entry = Entry(count: nat, word: string)

  /** The sort comparator: the higher count first, equal counts by ascending word. */
  predicate Before(a: Entry, b: Entry) {
    a.count > b.count || (a.count == b.count && Less(a.word, b.word))
  }

  lemma BeforeIrreflexive(a: Entry)
    ensures !Before(a, a)
  {
    LessIrreflexive(a.word);
  }

  lemma BeforeTransitive(a: Entry, b: Entry, c: Entry)
    requires Before(a, b) && Before(b, c)
    ensures Before(a, c)
  {
    if a.count == b.count && b.count == c.count {
      LessTransitive(a.word, b.word, c.word);
    }
  }

  /** Entries for different words are always comparable. */
  lemma BeforeTotal(a: Entry, b: Entry)
    requires a.word != b.word
    ensures Before(a, b) || Before(b, a)
  {
    LessTotal(a.word, b.word);
  }

  /** Strictly ordered by the comparator, pair by pair. */
  predicate Sorted(s: seq<Entry>) {
    forall i, j | 0 <= i < j < |s| :: Before(s[i], s[j])
  }

  lemma SortedPrefix(s: seq<Entry>, k: nat)
    requires Sorted(s) && k <= |s|
    ensures Sorted(s[..k])
  {
  }

  predicate DistinctWords(s: seq<Entry>) {
    forall i, j | 0 <= i < j < |s| :: s[i].word != s[j].word
  }

  /** `es` lists the frequency map `m`: one entry per key, with its count. */
  ghost predicate Represents(es: seq<Entry>, m: map<string, nat>) {
    && DistinctWords(es)
    && (forall e | e in es :: e.word in m && m[e.word] == e.count)
    && (forall w | w in m :: Entry(m[w], w) in es)
  }

  /** Putting `x` in front of a sorted list that `x` precedes keeps it sorted. */
  lemma ConsSorted(x: Entry, s: seq<Entry>)
    requires Sorted(s)
    requires forall y | y in s :: Before(x, y)
    ensures Sorted([x] + s)
  {
    var r := [x] + s;
    forall i, j | 0 <= i < j < |r| ensures Before(r[i], r[j]) {
      if i == 0 {
        assert r[j] == s[j - 1];
      } else {
        assert r[i] == s[i - 1] && r[j] == s[j - 1];
      }
    }
  }

  /** Insertion of one entry into a sorted list, before the first entry it precedes. */
  function Insert(e: Entry, s: seq<Entry>): (r: seq<Entry>)
    ensures multiset(r) == multiset(s) + multiset{e}
  {
    if s == [] then [e]
    else if Before(e, s[0]) then [e] + s
    else
      assert s == [s[0]] + s[1..];
      [s[0]] + Insert(e, s[1..])
  }

  /** Inserting an entry for a new word into a sorted list keeps it sorted. */
  lemma {:induction false} InsertSorted(e: Entry, s: seq<Entry>)
    requires Sorted(s)
    requires forall x | x in s :: x.word != e.word
    ensures Sorted(Insert(e, s))
  {
    if s == [] {
    } else if Before(e, s[0]) {
      forall y | y in s ensures Before(e, y) {
        if y != s[0] {
          BeforeTransitive(e, s[0], y);
        }
      }
      ConsSorted(e, s);
    } else {
      var t := Insert(e, s[1..]);
      InsertSorted(e, s[1..]);
      forall y | y in t ensures Before(s[0], y) {
        assert y in multiset(t);
        if y == e {
          BeforeTotal(e, s[0]);
        } else {
          assert y in multiset(s[1..]);
          var j :| 0 <= j < |s| - 1 && s[1..][j] == y;
          assert s[j + 1] == y;
        }
      }
      ConsSorted(s[0], t);
    }
  }

  /** Insertion sort: a sorted permutation of a list of entries for distinct words. */
  function Sort(s: seq<Entry>): (r: seq<Entry>)
    requires DistinctWords(s)
    ensures multiset(r) == multiset(s)
    ensures Sorted(r)
  {
    if s == [] then []
    else
      assert s == [s[0]] + s[1..];
      var t := Sort(s[1..]);
      assert forall x | x in t :: x.word != s[0].word by {
        forall x | x in t ensures x.word != s[0].word {
          assert x in multiset(s[1..]);
        }
      }
      assert Sorted(Insert(s[0], t)) by { InsertSorted(s[0], t); }
      Insert(s[0], t)
  }

  /** Sorting a listing of `m` gives a listing of `m`. */
  lemma SortRepresents(es: seq<Entry>, m: map<string, nat>)
    requires Represents(es, m)
    ensures Represents(Sort(es), m)
  {
    var r := Sort(es);
    forall x ensures x in r <==> x in es {
      assert x in r <==> x in multiset(r);
      assert x in es <==> x in multiset(es);
    }
    forall i, j | 0 <= i < j < |r| ensures r[i].word != r[j].word {
      if r[i].word == r[j].word {
        assert r[i] in es && r[j] in es;
        BeforeIrreflexive(r[i]);
        assert false;
      }
    }
  }

  /** The tail of a strictly sorted list holds everything but its head. */
  lemma SortedTail(s: seq<Entry>, x: Entry)
    requires Sorted(s) && s != []
    ensures x in s[1..] <==> x in s && x != s[0]
  {
    if x in s[1..] {
      var i :| 1 <= i < |s| && s[i] == x;
      if x == s[0] { BeforeIrreflexive(x); }
    }
    if x in s && x != s[0] {
      assert s == [s[0]] + s[1..];
    }
  }

  /** Two strictly sorted lists with the same elements are equal. */
  lemma {:induction false} SortedUnique(a: seq<Entry>, b: seq<Entry>)
    requires Sorted(a) && Sorted(b)
    requires forall x :: x in a <==> x in b
    ensures a == b
    decreases |a|
  {
    assert a == [] <==> b == [] by {
      if a != [] { assert a[0] in b; }
      if b != [] { assert b[0] in a; }
    }
    if a != [] {
      assert a[0] in b && b[0] in a;
      if a[0] != b[0] {
        BeforeTransitive(a[0], b[0], a[0]);
        BeforeIrreflexive(a[0]);
      }
      forall x ensures x in a[1..] <==> x in b[1..] {
        SortedTail(a, x);
        SortedTail(b, x);
      }
      SortedUnique(a[1..], b[1..]);
      assert a == [a[0]] + a[1..] && b == [b[0]] + b[1..];
    }
  }

  /** A listing of the keys `keys` of `m`, in an unspecified order. */
  ghost function Listing(m: map<string, nat>, keys: set<string>): (es: seq<Entry>)
    requires keys <= m.Keys
    ensures DistinctWords(es)
    ensures forall e | e in es :: e.word in keys && m[e.word] == e.count
    ensures forall w | w in keys :: Entry(m[w], w) in es
    decreases keys
  {
    if keys == {} then []
    else
      var k :| k in keys;
      var init := Listing(m, keys - {k});
      var es := init + [Entry(m[k], k)];
      assert forall e | e in es :: e in init || e == Entry(m[k], k);
      es
  }

  /**
    The ranking of a frequency map: its entries sorted by the comparator.
    There is exactly one such list (RankedUnique), so it does not depend on
    the order the map is walked in.
   */
  ghost function Ranked(m: map<string, nat>): (r: seq<Entry>)
    ensures Represents(r, m) && Sorted(r)
  {
    var es := Listing(m, m.Keys);
    assert Represents(Sort(es), m) by { SortRepresents(es, m); }
    Sort(es)
  }

  /** Any sorted listing of `m` is the ranking of `m`. */
  lemma RankedUnique(es: seq<Entry>, m: map<string, nat>)
    requires Represents(es, m) && Sorted(es)
    ensures es == Ranked(m)
  {
    var r := Ranked(m);
    forall x ensures x in es <==> x in r {
      if x in es { assert x == Entry(m[x.word], x.word); }
      if x in r { assert x == Entry(m[x.word], x.word); }
    }
    SortedUnique(es, r);
  }

  /**
    The loop that copies the frequency map into a list of entries; it visits
    the keys in whatever order it picks.
   */
  method Materialize(m: map<string, nat>) returns (es: seq<Entry>)
    ensures Represents(es, m)
  {
    var rest := m.Keys;
    es := [];
    while rest != {}
      invariant rest <= m.Keys
      invariant DistinctWords(es)
      invariant forall e | e in es :: e.word in m && m[e.word] == e.count && e.word !in rest
      invariant forall w | w in m && w !in rest :: Entry(m[w], w) in es
      decreases rest
    {
      var w :| w in rest;
      es := es + [Entry(m[w], w)];
      rest := rest - {w};
    }
  }

  /** Sum of the counts of a list of entries. */
  function SumCounts(es: seq<Entry>): nat {
    if es == [] then 0 else SumCounts(es[..|es| - 1]) + es[|es| - 1].count
  }

  lemma SumCountsSnoc(es: seq<Entry>, e: Entry)
    ensures SumCounts(es + [e]) == SumCounts(es) + e.count
  {
    assert (es + [e])[..|es|] == es;
  }

  /** A prefix never sums to more than the whole list. */
  lemma {:induction false} SumCountsPrefix(es: seq<Entry>, k: nat)
    requires k <= |es|
    ensures SumCounts(es[..k]) <= SumCounts(es)
    decreases |es| - k
  {
    if k < |es| {
      SumCountsSnoc(es[..k], es[k]);
      assert es[..k + 1] == es[..k] + [es[k]];
      SumCountsPrefix(es, k + 1);
    } else {
      assert es[..k] == es;
    }
  }

  /** The words of a list of entries. */
  ghost function WordSet(es: seq<Entry>): set<string> {
    set e | e in es :: e.word
  }

  lemma WordSetSnoc(es: seq<Entry>, e: Entry)
    ensures WordSet(es + [e]) == WordSet(es) + {e.word}
  {
    assert forall x | x in es + [e] :: x in es || x == e;
  }

  /** Summing the entries is summing the map over their words. */
  lemma {:induction false} SumCountsOver(es: seq<Entry>, m: map<string, nat>)
    requires DistinctWords(es)
    requires forall e | e in es :: e.word in m && m[e.word] == e.count
    ensures WordSet(es) <= m.Keys
    ensures SumCounts(es) == SumOver(m, WordSet(es))
    decreases |es|
  {
    if es == [] {
      assert WordSet(es) == {};
    } else {
      var init, last := es[..|es| - 1], es[|es| - 1];
      assert es == init + [last];
      assert forall e | e in init :: e in es;
      SumCountsOver(init, m);
      WordSetSnoc(init, last);
      assert last.word !in WordSet(init);
      SumOverRemove(m, WordSet(es), last.word);
      assert WordSet(es) - {last.word} == WordSet(init);
    }
  }

  /** Distinct words: as many words as entries. */
  lemma {:induction false} WordSetSize(es: seq<Entry>)
    requires DistinctWords(es)
    ensures |WordSet(es)| == |es|
    decreases |es|
  {
    if es == [] {
      assert WordSet(es) == {};
    } else {
      var init, last := es[..|es| - 1], es[|es| - 1];
      assert es == init + [last];
      WordSetSnoc(init, last);
      WordSetSize(init);
      assert last.word !in WordSet(init);
    }
  }

  /** A listing of `m` has one entry per key and sums to the map's total. */
  lemma RepresentsTotals(es: seq<Entry>, m: map<string, nat>)
    requires Represents(es, m)
    ensures |es| == |m|
    ensures SumCounts(es) == MapSum(m)
  {
    SumCountsOver(es, m);
    assert WordSet(es) == m.Keys by {
      forall w | w in m ensures w in WordSet(es) {
        assert Entry(m[w], w) in es;
      }
    }
    WordSetSize(es);
  }
}
