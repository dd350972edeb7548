/**
 * The aggregation logic of the word-count demo (`fj.demo.concurrent.WordCount`).
 *
 * Each file is taken as the sequence of words its text splits into. A file's
 * word counts are a left fold of the counting step over its words; the
 * sequential result folds the counting step over the words of all files one
 * after another, and the parallel result merges the per-file maps with `plus`
 * under the monoid whose identity is the empty map. Word→count maps
 * (`TreeMap<String, Integer>`) are Dafny maps; counts are unbounded integers.
 */
module WordCount {

  /** A word→count map. */
  type Counts = map<string, int>

  /** `integersAdd`: the update `plus` applies to the two counts of a shared word. */
  function Add(x: int, y: int): int
  {
    x + y
  }

  /**
   * The map `plus(a, b, update)` returns: every key of either map; for a key
   * in both, `update` of a's value and b's value; otherwise the one value.
   */
  function Merge<K(==), V>(a: map<K, V>, b: map<K, V>, update: (V, V) -> V): (r: map<K, V>)
    ensures r.Keys == a.Keys + b.Keys
  {
    map k | k in a.Keys + b.Keys :: if k in a && k in b then update(a[k], b[k]) else if k in a then a[k] else b[k]
  }

  /**
   * `plus`: an empty side returns the other map as it is; otherwise a's
   * entries are copied into a mutable map, each entry whose key b also has
   * is updated in place, and then b's entries whose keys are missing are put
   * in. The loops iterate the `Map` that `toMutableMap()` returns, whose
   * order the code does not fix, so each loop picks its next key arbitrarily.
   */
  method Plus<K(==), V>(a: map<K, V>, b: map<K, V>, update: (V, V) -> V) returns (r: map<K, V>)
    ensures |a| == 0 ==> r == b
    ensures |b| == 0 ==> r == a
    ensures r == Merge(a, b, update)
  {
    if |a| == 0 {
      MergeIdentity(b, update);
      return b;
    }
    if |b| == 0 {
      MergeIdentity(a, update);
      return a;
    }
    var ma := a;
    var toUpdate := a.Keys;
    while toUpdate != {}
      invariant toUpdate <= a.Keys && ma.Keys == a.Keys
      invariant forall k :: k in ma ==> ma[k] == if k in b && k !in toUpdate then update(a[k], b[k]) else a[k]
      decreases toUpdate
    {
      var k :| k in toUpdate;
      if k in b {
        ma := ma[k := update(ma[k], b[k])];
      }
      toUpdate := toUpdate - {k};
    }
    var toAdd := b.Keys;
    while toAdd != {}
      invariant toAdd <= b.Keys && ma.Keys == a.Keys + (b.Keys - toAdd)
      invariant forall k :: k in ma ==> ma[k] == Merge(a, b, update)[k]
      decreases toAdd
    {
      var k :| k in toAdd;
      if k !in ma {
        ma := ma[k := b[k]];
      }
      toAdd := toAdd - {k};
    }
    r := ma;
  }

  /** `wordsAndCounts`: `map.update(word, add(1), 1)`, one more occurrence of `w`. */
  function CountWord(m: Counts, w: string): (r: Counts)
    ensures r.Keys == m.Keys + {w}
    ensures r[w] == if w in m then m[w] + 1 else 1
    ensures forall k :: k in m && k != w ==> r[k] == m[k]
  {
    if w in m then m[w := m[w] + 1] else m[w := 1]
  }

  /** `foldLeft(wordsAndCounts, m)` over the words `ws`. */
  function FoldCount(m: Counts, ws: seq<string>): Counts
    decreases |ws|
  {
    if ws == [] then m else FoldCount(CountWord(m, ws[0]), ws[1..])
  }

  /** `fileNameToWordsAndCounts`: the counts of one file's words, starting from the empty map. */
  function FileCounts(ws: seq<string>): Counts
  {
    FoldCount(map[], ws)
  }

  /** The words of all files, file after file (`fileNames.map(read).bind(words)`). */
  function Flatten(files: seq<seq<string>>): seq<string>
  {
    if files == [] then [] else Flatten(files[..|files| - 1]) + files[|files| - 1]
  }

  /** Sequential `getWordsAndCountsFromFiles(fileNames)`: one fold over all the words. */
  function WordCounts(files: seq<seq<string>>): Counts
  {
    FileCounts(Flatten(files))
  }

  /**
   * The parallel `getWordsAndCountsFromFiles(fileNames, m)` run one file at a
   * time: the per-file maps combined left to right with `plus`, starting
   * from the monoid's identity, the empty map.
   */
  function FoldMap(files: seq<seq<string>>): Counts
  {
    if files == [] then map[] else Merge(FoldMap(files[..|files| - 1]), FileCounts(files[|files| - 1]), Add)
  }

  // ---------------------------------------------------------------------------
  // The merge and its monoid

  /**
   * What `plus` promises entry by entry: the keys are exactly those of
   * either map; a shared key gets `update` of a's and b's value; a key of
   * one side only keeps that side's value.
   */
  lemma MergeEntries<K, V>(a: map<K, V>, b: map<K, V>, update: (V, V) -> V)
    ensures Merge(a, b, update).Keys == a.Keys + b.Keys
    ensures forall k :: k in a && k in b ==> Merge(a, b, update)[k] == update(a[k], b[k])
    ensures forall k :: k in a && k !in b ==> Merge(a, b, update)[k] == a[k]
    ensures forall k :: k !in a && k in b ==> Merge(a, b, update)[k] == b[k]
  {
  }

  /** The empty map is an identity of `plus` on either side. */
  lemma MergeIdentity<K, V>(a: map<K, V>, update: (V, V) -> V)
    ensures Merge(map[], a, update) == a
    ensures Merge(a, map[], update) == a
  {
  }

  /** With an associative update, `plus` is associative. */
  lemma MergeAssociative<K, V>(a: map<K, V>, b: map<K, V>, c: map<K, V>, update: (V, V) -> V)
    requires forall x, y, z :: update(update(x, y), z) == update(x, update(y, z))
    ensures Merge(Merge(a, b, update), c, update) == Merge(a, Merge(b, c, update), update)
  {
  }

  /** With a commutative update, `plus` is commutative. */
  lemma MergeCommutative<K, V>(a: map<K, V>, b: map<K, V>, update: (V, V) -> V)
    requires forall x, y :: update(x, y) == update(y, x)
    ensures Merge(a, b, update) == Merge(b, a, update)
  {
  }

  /** Merging maps with disjoint keys keeps every entry, so the sizes add up. */
  lemma MergeDisjointSize<K, V>(a: map<K, V>, b: map<K, V>, update: (V, V) -> V)
    requires a.Keys !! b.Keys
    ensures |Merge(a, b, update)| == |a| + |b|
  {
    assert Merge(a, b, update).Keys == a.Keys + b.Keys;
  }

  /** For word counts the merge is associative and commutative: any grouping and order of the partial maps. */
  lemma CountsMergeLaws(a: Counts, b: Counts, c: Counts)
    ensures Merge(Merge(a, b, Add), c, Add) == Merge(a, Merge(b, c, Add), Add)
    ensures Merge(a, b, Add) == Merge(b, a, Add)
    ensures Merge(Merge(a, b, Add), c, Add) == Merge(Merge(a, c, Add), b, Add)
  {
    MergeAssociative(a, b, c, Add);
    MergeCommutative(a, b, Add);
    MergeAssociative(a, c, b, Add);
    MergeCommutative(b, c, Add);
  }

  // ---------------------------------------------------------------------------
  // Counting

  /**
   * Folding the counting step over `ws` adds the number of occurrences of
   * each word to its count (absent counting as 0), and adds exactly the
   * words of `ws` as keys.
   */
  lemma {:induction false} FoldCountOccurrences(m: Counts, ws: seq<string>)
    ensures FoldCount(m, ws).Keys == m.Keys + (set w | w in ws)
    ensures forall k :: k in FoldCount(m, ws) ==>
      FoldCount(m, ws)[k] == (if k in m then m[k] else 0) + multiset(ws)[k]
    decreases |ws|
  {
    if ws != [] {
      FoldCountOccurrences(CountWord(m, ws[0]), ws[1..]);
      assert ws == [ws[0]] + ws[1..];
      assert multiset(ws) == multiset{ws[0]} + multiset(ws[1..]);
    }
  }

  /** A file's counts: its words are the keys, each mapped to its number of occurrences. */
  lemma FileCountsOccurrences(ws: seq<string>)
    ensures FileCounts(ws).Keys == (set w | w in ws)
    ensures forall k :: k in FileCounts(ws) ==> FileCounts(ws)[k] == multiset(ws)[k]
  {
    FoldCountOccurrences(map[], ws);
  }

  /** Counting words onto `m` is merging `m` with the counts of those words. */
  lemma FoldCountIsMerge(m: Counts, ws: seq<string>)
    ensures FoldCount(m, ws) == Merge(m, FileCounts(ws), Add)
  {
    var counted := FoldCount(m, ws);
    var merged := Merge(m, FileCounts(ws), Add);
    FoldCountOccurrences(m, ws);
    FileCountsOccurrences(ws);
    assert counted.Keys == merged.Keys;
    forall k | k in counted
      ensures counted[k] == merged[k]
    {
      if k !in FileCounts(ws) {
        assert k !in ws;
        assert multiset(ws)[k] == 0;
      }
    }
  }

  /** Counting `xs + ys` is counting `xs` and then `ys`. */
  lemma {:induction false} FoldCountAppend(m: Counts, xs: seq<string>, ys: seq<string>)
    ensures FoldCount(m, xs + ys) == FoldCount(FoldCount(m, xs), ys)
    decreases |xs|
  {
    if xs == [] {
      assert xs + ys == ys;
    } else {
      assert (xs + ys)[1..] == xs[1..] + ys;
      FoldCountAppend(CountWord(m, xs[0]), xs[1..], ys);
    }
  }

  /**
   * Independence of grouping: folding the concatenation of two lists of files
   * is merging the folds of each part, so any split of the files among
   * workers, merged in order, gives the same map.
   */
  lemma {:induction false} FoldMapAppend(xs: seq<seq<string>>, ys: seq<seq<string>>)
    ensures FoldMap(xs + ys) == Merge(FoldMap(xs), FoldMap(ys), Add)
    decreases |ys|
  {
    if ys == [] {
      assert xs + ys == xs;
      MergeIdentity(FoldMap(xs), Add);
    } else {
      var init := ys[..|ys| - 1];
      var last := ys[|ys| - 1];
      assert (xs + ys)[..|xs + ys| - 1] == xs + init;
      FoldMapAppend(xs, init);
      MergeAssociative(FoldMap(xs), FoldMap(init), FileCounts(last), Add);
    }
  }

  /**
   * The parallel aggregation (a fold of per-file maps with `plus`) equals
   * the sequential one (counting over all words of all files in order).
   */
  lemma {:induction false} ParallelEqualsSequential(files: seq<seq<string>>)
    ensures FoldMap(files) == WordCounts(files)
    decreases |files|
  {
    if files == [] {
    } else {
      var init := files[..|files| - 1];
      var last := files[|files| - 1];
      ParallelEqualsSequential(init);
      FoldCountIsMerge(FileCounts(Flatten(init)), last);
      FoldCountAppend(map[], Flatten(init), last);
    }
  }

  /** The aggregated count of a word is its number of occurrences over all files. */
  lemma WordCountsOccurrences(files: seq<seq<string>>)
    ensures WordCounts(files).Keys == (set w | w in Flatten(files))
    ensures forall k :: k in WordCounts(files) ==> WordCounts(files)[k] == multiset(Flatten(files))[k]
  {
    FileCountsOccurrences(Flatten(files));
  }

}
