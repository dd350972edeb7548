/**
 * The sample files of the word-count demo and the result its `main` expects:
 * file `i` holds the word `File<i>` followed by the shared words
 * `someword0` … `someword<numSharedWords-1>`, and the file list is built by
 * prepending, so it runs from the last file to the first.
 */
module WordCountSample {

  import opened WordCount

  /** One decimal digit. */
  function Digit(d: nat): char
    requires d < 10
  {
    ('0' as int + d) as char
  }

  /** `Integer.toString` of a non-negative number: its decimal digits. */
  function Decimal(n: nat): (s: string)
    ensures |s| >= 1
  {
    if n < 10 then [Digit(n)] else Decimal(n / 10) + [Digit(n % 10)]
  }

  /** Different numbers are written differently. */
  lemma {:induction false} DecimalInjective(m: nat, n: nat)
    requires Decimal(m) == Decimal(n)
    ensures m == n
  {
    if m >= 10 && n >= 10 {
      var dm, dn := Decimal(m), Decimal(n);
      assert dm[..|dm| - 1] == Decimal(m / 10);
      assert dn[..|dn| - 1] == Decimal(n / 10);
      DecimalInjective(m / 10, n / 10);
      assert Digit(m % 10) == dm[|dm| - 1] == dn[|dn| - 1] == Digit(n % 10);
    } else if m < 10 && n < 10 {
      assert Digit(m) == Decimal(m)[0] == Decimal(n)[0] == Digit(n);
    }
  }

  /** The word only file `i` holds. */
  function FileWord(i: nat): string
  {
    "File" + Decimal(i)
  }

  /** The `j`-th word every file holds. */
  function SharedWord(j: nat): string
  {
    "someword" + Decimal(j)
  }

  lemma FileWordInjective(i: nat, k: nat)
    requires FileWord(i) == FileWord(k)
    ensures i == k
  {
    assert Decimal(i) == FileWord(i)[4..] == FileWord(k)[4..] == Decimal(k);
    DecimalInjective(i, k);
  }

  lemma SharedWordInjective(j: nat, k: nat)
    requires SharedWord(j) == SharedWord(k)
    ensures j == k
  {
    assert Decimal(j) == SharedWord(j)[8..] == SharedWord(k)[8..] == Decimal(k);
    DecimalInjective(j, k);
  }

  lemma FileWordIsNotShared(i: nat, j: nat)
    ensures FileWord(i) != SharedWord(j)
  {
    assert FileWord(i)[0] != SharedWord(j)[0];
  }

  /** The words of file `i`: its own word, then the shared words in order. */
  function SampleFile(i: nat, numSharedWords: nat): seq<string>
  {
    [FileWord(i)] + SharedWords(numSharedWords)
  }

  function SharedWords(numSharedWords: nat): seq<string>
  {
    seq(numSharedWords, (j: int) requires 0 <= j => SharedWord(j))
  }

  /** The own words of the files, in the order of the file list (last file first). */
  function OwnWords(numFiles: nat): seq<string>
  {
    seq(numFiles, (k: int) requires 0 <= k < numFiles => FileWord(numFiles - 1 - k))
  }

  /** The file list `writeSampleFiles` returns: the files prepended one by one, so the last comes first. */
  function SampleFiles(numFiles: nat, numSharedWords: nat): seq<seq<string>>
  {
    seq(numFiles, (k: int) requires 0 <= k < numFiles => SampleFile(numFiles - 1 - k, numSharedWords))
  }

  /**
   * The map `writeSampleFiles` expects: `File<i>` ↦ 1 for every file, and,
   * once there is a file, `someword<j>` ↦ `numFiles` for every shared word.
   */
  function Expected(numFiles: nat, numSharedWords: nat): Counts
  {
    var own := set i | 0 <= i < numFiles :: FileWord(i);
    var shared := if numFiles > 0 then set j | 0 <= j < numSharedWords :: SharedWord(j) else {};
    map w | w in own + shared :: if w in own then 1 else numFiles
  }

  ghost predicate Distinct(s: seq<string>)
  {
    forall i, j :: 0 <= i < j < |s| ==> s[i] != s[j]
  }

  /** In a sequence without repetitions every element occurs once. */
  lemma {:induction false} DistinctOccursOnce(s: seq<string>, w: string)
    requires Distinct(s)
    ensures multiset(s)[w] == if w in s then 1 else 0
    decreases |s|
  {
    if s != [] {
      var init := s[..|s| - 1];
      assert s == init + [s[|s| - 1]];
      DistinctOccursOnce(init, w);
      assert w in s <==> w in init || w == s[|s| - 1];
    }
  }

  /**
   * Files made of one own word followed by the same distinct shared words:
   * each word occurs as often as it is an own word, plus once per file if it
   * is a shared word.
   */
  lemma {:induction false} FlattenOccurrences(files: seq<seq<string>>, own: seq<string>, shared: seq<string>, w: string)
    requires |files| == |own| && Distinct(shared)
    requires forall k :: 0 <= k < |files| ==> files[k] == [own[k]] + shared
    ensures multiset(Flatten(files))[w] == multiset(own)[w] + if w in shared then |files| else 0
    decreases |files|
  {
    if files != [] {
      var n := |files|;
      var init, ownInit, last := files[..n - 1], own[..n - 1], own[n - 1];
      forall k | 0 <= k < |init|
        ensures init[k] == [ownInit[k]] + shared
      {
      }
      FlattenOccurrences(init, ownInit, shared, w);
      DistinctOccursOnce(shared, w);
      calc {
        multiset(Flatten(files))[w];
      ==  { assert Flatten(files) == Flatten(init) + ([last] + shared); }
        multiset(Flatten(init))[w] + multiset([last])[w] + multiset(shared)[w];
      ==  { assert own == ownInit + [last]; }
        multiset(own)[w] + (if w in shared then n else 0);
      }
    }
  }

  /** The own words are distinct and are exactly the words `File<i>`. */
  lemma OwnWordsSpec(numFiles: nat)
    ensures Distinct(OwnWords(numFiles))
    ensures forall w :: w in OwnWords(numFiles) <==> w in (set i | 0 <= i < numFiles :: FileWord(i))
  {
    var own := OwnWords(numFiles);
    forall i, j | 0 <= i < j < |own|
      ensures own[i] != own[j]
    {
      if own[i] == own[j] {
        FileWordInjective(numFiles - 1 - i, numFiles - 1 - j);
      }
    }
    forall w | w in (set i | 0 <= i < numFiles :: FileWord(i))
      ensures w in own
    {
      var i :| 0 <= i < numFiles && w == FileWord(i);
      assert own[numFiles - 1 - i] == w;
    }
  }

  /** The shared words are distinct and are exactly the words `someword<j>`. */
  lemma SharedWordsSpec(numSharedWords: nat)
    ensures Distinct(SharedWords(numSharedWords))
    ensures forall w :: w in SharedWords(numSharedWords) <==> w in (set j | 0 <= j < numSharedWords :: SharedWord(j))
  {
    var shared := SharedWords(numSharedWords);
    forall i, j | 0 <= i < j < |shared|
      ensures shared[i] != shared[j]
    {
      if shared[i] == shared[j] {
        SharedWordInjective(i, j);
      }
    }
    forall w | w in (set j | 0 <= j < numSharedWords :: SharedWord(j))
      ensures w in shared
    {
      var j :| 0 <= j < numSharedWords && w == SharedWord(j);
      assert shared[j] == w;
    }
  }

  /** Each sample word occurs as `main` expects: `File<i>` once, `someword<j>` once per file. */
  lemma SampleOccurrences(numFiles: nat, numSharedWords: nat, w: string)
    ensures var own := set i | 0 <= i < numFiles :: FileWord(i);
      var shared := set j | 0 <= j < numSharedWords :: SharedWord(j);
      multiset(Flatten(SampleFiles(numFiles, numSharedWords)))[w]
        == (if w in own then 1 else 0) + (if w in shared then numFiles else 0)
  {
    var own, shared := OwnWords(numFiles), SharedWords(numSharedWords);
    var files := SampleFiles(numFiles, numSharedWords);
    forall k | 0 <= k < |files|
      ensures files[k] == [own[k]] + shared
    {
      assert files[k] == SampleFile(numFiles - 1 - k, numSharedWords);
    }
    OwnWordsSpec(numFiles);
    SharedWordsSpec(numSharedWords);
    FlattenOccurrences(files, own, shared, w);
    DistinctOccursOnce(own, w);
  }

  /** A sequence without repetitions has as many distinct elements as it is long. */
  lemma {:induction false} DistinctSize(s: seq<string>)
    requires Distinct(s)
    ensures |set w | w in s| == |s|
    decreases |s|
  {
    if s != [] {
      var init := s[..|s| - 1];
      DistinctSize(init);
      assert (set w | w in s) == (set w | w in init) + {s[|s| - 1]};
    }
  }

  /** Both aggregations of the sample files yield the map `main` expects. */
  lemma SampleCounts(numFiles: nat, numSharedWords: nat)
    ensures WordCounts(SampleFiles(numFiles, numSharedWords)) == Expected(numFiles, numSharedWords)
    ensures FoldMap(SampleFiles(numFiles, numSharedWords)) == Expected(numFiles, numSharedWords)
  {
    var files := SampleFiles(numFiles, numSharedWords);
    var counts := WordCounts(files);
    var expected := Expected(numFiles, numSharedWords);
    var own := set i | 0 <= i < numFiles :: FileWord(i);
    var shared := set j | 0 <= j < numSharedWords :: SharedWord(j);
    WordCountsOccurrences(files);
    forall w
      ensures w in counts <==> w in expected
      ensures w in counts ==> counts[w] == expected[w]
    {
      SampleOccurrences(numFiles, numSharedWords, w);
      assert w in Flatten(files) <==> multiset(Flatten(files))[w] > 0;
      if w in own && w in shared {
        var i :| 0 <= i < numFiles && w == FileWord(i);
        var j :| 0 <= j < numSharedWords && w == SharedWord(j);
        FileWordIsNotShared(i, j);
      }
    }
    assert counts == expected;
    ParallelEqualsSequential(files);
  }

  /** The expected map has `numFiles + numSharedWords` words once there is at least one file. */
  lemma ExpectedSize(numFiles: nat, numSharedWords: nat)
    requires numFiles > 0
    ensures |Expected(numFiles, numSharedWords)| == numFiles + numSharedWords
  {
    var own := set i | 0 <= i < numFiles :: FileWord(i);
    var shared := set j | 0 <= j < numSharedWords :: SharedWord(j);
    OwnWordsSpec(numFiles);
    SharedWordsSpec(numSharedWords);
    DistinctSize(OwnWords(numFiles));
    DistinctSize(SharedWords(numSharedWords));
    assert own == set w | w in OwnWords(numFiles);
    assert shared == set w | w in SharedWords(numSharedWords);
    forall w | w in own ensures w !in shared {
      var i :| 0 <= i < numFiles && w == FileWord(i);
      if w in shared {
        var j :| 0 <= j < numSharedWords && w == SharedWord(j);
        FileWordIsNotShared(i, j);
      }
    }
    assert own * shared == {};
    assert |own| == numFiles && |shared| == numSharedWords;
    assert Expected(numFiles, numSharedWords).Keys == own + shared;
  }

  /**
   * The assertions of the demo's `main` on 100 files sharing 200 words: both
   * aggregations yield the expected map, of 300 words.
   */
  lemma DemoResult()
    ensures WordCounts(SampleFiles(100, 200)) == Expected(100, 200)
    ensures FoldMap(SampleFiles(100, 200)) == Expected(100, 200)
    ensures |Expected(100, 200)| == 300
  {
    SampleCounts(100, 200);
    ExpectedSize(100, 200);
  }

}
