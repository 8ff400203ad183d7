/**
 * The approximate matcher of src/algorithm/fuzzy.py: word n-grams of the
 * CV text, unit-cost edit distance computed bottom-up over a table of
 * suffix distances, the similarity `1 - distance / longer length`, and
 * the search that keeps the n-grams reaching a threshold, ordered from
 * the best (similarity, phrase) pair down.
 */
module Fuzzy {
  import opened Text

  // ---------------------------------------------------------------- n-grams

  /** The windows of `n` consecutive words, each joined by single spaces, in order. */
  function Windows(words: seq<string>, n: nat): seq<string> {
    var count := if n <= |words| + 1 then |words| + 1 - n else 0;
    seq(count, i requires 0 <= i < count => Join(words[i..i + n], " "))
  }

  /**
   * `get_ngrams(text, n)`: every window of `n` consecutive words of the
   * lower-cased text, joined by single spaces, in text order.
   */
  function GetNgrams(text: string, n: nat): seq<string> {
    Windows(Words(Lower(text)), n)
  }

  /**
   * There are `max(0, w - n + 1)` windows of `n` words among `w` words, and
   * splitting window `i` again gives back exactly the words `i .. i+n`.
   */
  lemma WindowsOfWords(words: seq<string>, n: nat, i: nat)
    requires forall k :: 0 <= k < |words| ==> IsWord(words[k])
    ensures |Windows(words, n)| == if n <= |words| + 1 then |words| + 1 - n else 0
    ensures i < |Windows(words, n)| ==> i + n <= |words| && Words(Windows(words, n)[i]) == words[i..i + n]
  {
    if i < |Windows(words, n)| {
      var window := words[i..i + n];
      assert forall k :: 0 <= k < |window| ==> IsWord(window[k]) by {
        forall k | 0 <= k < |window| ensures IsWord(window[k]) {
          assert window[k] == words[i + k];
        }
      }
      var ngram := Windows(words, n)[i];
      assert ngram == Join(window, " ");
      WordsOfJoin(window);
      assert Words(ngram) == window;
    }
  }

  /**
   * For `n` words per n-gram, `get_ngrams` gives `max(0, w - n + 1)` items,
   * `w` being the number of words of the lower-cased text, and item `i`
   * holds exactly the words `i .. i+n` of that text.
   */
  lemma NgramWords(text: string, n: nat, i: nat)
    ensures |GetNgrams(text, n)| == if n <= |Words(Lower(text))| + 1 then |Words(Lower(text))| + 1 - n else 0
    ensures i < |GetNgrams(text, n)| ==>
              i + n <= |Words(Lower(text))| && Words(GetNgrams(text, n)[i]) == Words(Lower(text))[i..i + n]
  {
    var words := Words(Lower(text));
    WordsAreWords(Lower(text));
    WindowsOfWords(words, n, i);
  }

  // ---------------------------------------------------------- edit distance

  function Min3(a: nat, b: nat, c: nat): nat {
    if a <= b && a <= c then a else if b <= c then b else c
  }

  /**
   * The value `cache[i][j]` of `levenshtein_distance`: the distance between
   * the suffixes `a[i..]` and `b[j..]`. When the two first characters agree
   * the table takes the diagonal directly; otherwise one plus the cheapest
   * of delete, insert and replace.
   */
  function SuffixDistance(a: string, b: string, i: nat, j: nat): nat
    requires i <= |a| && j <= |b|
    decreases |a| - i + |b| - j
  {
    if i == |a| then |b| - j
    else if j == |b| then |a| - i
    else if a[i] == b[j] then SuffixDistance(a, b, i + 1, j + 1)
    else 1 + Min3(SuffixDistance(a, b, i + 1, j), SuffixDistance(a, b, i, j + 1), SuffixDistance(a, b, i + 1, j + 1))
  }

  function EditDistance(a: string, b: string): nat {
    SuffixDistance(a, b, 0, 0)
  }

  /**
   * The textbook Levenshtein recurrence on suffixes: the cheapest of
   * deleting `a[i]`, inserting `b[j]`, or replacing `a[i]` by `b[j]`
   * (free when they agree), every operation costing one.
   */
  function Levenshtein(a: string, b: string, i: nat, j: nat): nat
    requires i <= |a| && j <= |b|
    decreases |a| - i + |b| - j
  {
    if i == |a| then |b| - j
    else if j == |b| then |a| - i
    else Min3(Levenshtein(a, b, i + 1, j) + 1,
              Levenshtein(a, b, i, j + 1) + 1,
              Levenshtein(a, b, i + 1, j + 1) + (if a[i] == b[j] then 0 else 1))
  }

  /** Dropping the first character of `b[j..]` changes the distance by at most one. */
  lemma {:induction false} LevenshteinDropB(a: string, b: string, i: nat, j: nat)
    requires i <= |a| && j < |b|
    ensures Levenshtein(a, b, i, j + 1) <= Levenshtein(a, b, i, j) + 1
    ensures Levenshtein(a, b, i, j) <= Levenshtein(a, b, i, j + 1) + 1
    decreases |a| - i + |b| - j
  {
    if i < |a| {
      LevenshteinDropB(a, b, i + 1, j);
      if j + 1 < |b| {
        LevenshteinDropA(a, b, i, j + 1);
      }
    }
  }

  /** Dropping the first character of `a[i..]` changes the distance by at most one. */
  lemma {:induction false} LevenshteinDropA(a: string, b: string, i: nat, j: nat)
    requires i < |a| && j <= |b|
    ensures Levenshtein(a, b, i + 1, j) <= Levenshtein(a, b, i, j) + 1
    ensures Levenshtein(a, b, i, j) <= Levenshtein(a, b, i + 1, j) + 1
    decreases |a| - i + |b| - j
  {
    if j < |b| {
      LevenshteinDropA(a, b, i, j + 1);
      if i + 1 < |a| {
        LevenshteinDropB(a, b, i + 1, j);
      }
    }
  }

  /**
   * The table of `levenshtein_distance`, which skips the minimum when the
   * first characters agree, computes the textbook edit distance.
   */
  lemma {:induction false} SuffixDistanceIsLevenshtein(a: string, b: string, i: nat, j: nat)
    requires i <= |a| && j <= |b|
    ensures SuffixDistance(a, b, i, j) == Levenshtein(a, b, i, j)
    decreases |a| - i + |b| - j
  {
    if i < |a| && j < |b| {
      SuffixDistanceIsLevenshtein(a, b, i + 1, j + 1);
      if a[i] == b[j] {
        LevenshteinDropB(a, b, i + 1, j);
        LevenshteinDropA(a, b, i, j + 1);
      } else {
        SuffixDistanceIsLevenshtein(a, b, i + 1, j);
        SuffixDistanceIsLevenshtein(a, b, i, j + 1);
      }
    }
  }

  /** The difference of the lengths bounds the distance from below, the longer length from above. */
  lemma {:induction false} SuffixDistanceBounds(a: string, b: string, i: nat, j: nat)
    requires i <= |a| && j <= |b|
    ensures SuffixDistance(a, b, i, j) >= (|a| - i) - (|b| - j)
    ensures SuffixDistance(a, b, i, j) >= (|b| - j) - (|a| - i)
    ensures SuffixDistance(a, b, i, j) <= |a| - i || SuffixDistance(a, b, i, j) <= |b| - j
    ensures SuffixDistance(a, b, i, j) <= if |a| - i >= |b| - j then |a| - i else |b| - j
    decreases |a| - i + |b| - j
  {
    if i < |a| && j < |b| {
      SuffixDistanceBounds(a, b, i + 1, j + 1);
      if a[i] != b[j] {
        SuffixDistanceBounds(a, b, i + 1, j);
        SuffixDistanceBounds(a, b, i, j + 1);
      }
    }
  }

  /** The distance is zero exactly when the two suffixes are equal. */
  lemma {:induction false} SuffixDistanceZero(a: string, b: string, i: nat, j: nat)
    requires i <= |a| && j <= |b|
    ensures SuffixDistance(a, b, i, j) == 0 <==> a[i..] == b[j..]
    decreases |a| - i + |b| - j
  {
    if i < |a| && j < |b| {
      assert a[i..] == [a[i]] + a[i + 1..];
      assert b[j..] == [b[j]] + b[j + 1..];
      SuffixDistanceZero(a, b, i + 1, j + 1);
    }
  }

  /** The distance does not depend on which string comes first. */
  lemma {:induction false} SuffixDistanceSymmetric(a: string, b: string, i: nat, j: nat)
    requires i <= |a| && j <= |b|
    ensures SuffixDistance(a, b, i, j) == SuffixDistance(b, a, j, i)
    decreases |a| - i + |b| - j
  {
    if i < |a| && j < |b| {
      SuffixDistanceSymmetric(a, b, i + 1, j + 1);
      if a[i] != b[j] {
        SuffixDistanceSymmetric(a, b, i + 1, j);
        SuffixDistanceSymmetric(a, b, i, j + 1);
      }
    }
  }

  /**
   * `levenshtein_distance` of `a` against an empty string is `len(a)` and
   * the other way round; between equal strings it is 0; it is symmetric;
   * and it lies between the difference of the lengths and the longer length.
   */
  lemma EditDistanceProperties(a: string, b: string)
    ensures EditDistance(a, []) == |a| && EditDistance([], b) == |b|
    ensures EditDistance(a, b) == 0 <==> a == b
    ensures EditDistance(a, b) == EditDistance(b, a)
    ensures |a| - |b| <= EditDistance(a, b) && |b| - |a| <= EditDistance(a, b)
    ensures EditDistance(a, b) <= if |a| >= |b| then |a| else |b|
    ensures EditDistance(a, b) == Levenshtein(a, b, 0, 0)
  {
    SuffixDistanceZero(a, b, 0, 0);
    assert a[0..] == a && b[0..] == b;
    SuffixDistanceSymmetric(a, b, 0, 0);
    SuffixDistanceBounds(a, b, 0, 0);
    SuffixDistanceIsLevenshtein(a, b, 0, 0);
  }

  /**
   * One pass of the inner loop of `levenshtein_distance`: fills row `i` of
   * the table from right to left, given the row below and the last column.
   */
  method FillRow(cache: array2<nat>, word1: string, word2: string, i: nat)
    requires cache.Length0 == |word1| + 1 && cache.Length1 == |word2| + 1 && i < |word1|
    requires forall r, c :: i < r <= |word1| && 0 <= c <= |word2| ==> cache[r, c] == SuffixDistance(word1, word2, r, c)
    requires cache[i, |word2|] == SuffixDistance(word1, word2, i, |word2|)
    modifies cache
    ensures forall c :: 0 <= c <= |word2| ==> cache[i, c] == SuffixDistance(word1, word2, i, c)
    ensures forall r, c :: 0 <= r < cache.Length0 && r != i && 0 <= c < cache.Length1 ==> cache[r, c] == old(cache[r, c])
  {
    var col := |word2|;
    for j := col downto 0
      invariant forall c :: j <= c <= col ==> cache[i, c] == SuffixDistance(word1, word2, i, c)
      invariant forall r, c :: 0 <= r < cache.Length0 && r != i && 0 <= c < cache.Length1 ==> cache[r, c] == old(cache[r, c])
    {
      var diagonal, below, right := cache[i + 1, j + 1], cache[i + 1, j], cache[i, j + 1];
      assert diagonal == SuffixDistance(word1, word2, i + 1, j + 1);
      assert below == SuffixDistance(word1, word2, i + 1, j);
      assert right == SuffixDistance(word1, word2, i, j + 1);
      if word1[i] == word2[j] {
        cache[i, j] := diagonal;
      } else {
        cache[i, j] := 1 + Min3(below, right, diagonal);
      }
    }
  }

  /**
   * `levenshtein_distance`: fills the `(len(a)+1) x (len(b)+1)` table from
   * the last row and column backwards and returns its corner.
   */
  method LevenshteinDistance(word1: string, word2: string) returns (distance: nat)
    ensures distance == EditDistance(word1, word2)
  {
    var row, col := |word1|, |word2|;
    var cache := new nat[row + 1, col + 1];
    for j := 0 to col + 1
      invariant forall c :: 0 <= c < j ==> cache[row, c] == col - c
    {
      cache[row, j] := col - j;
    }
    for i := 0 to row + 1
      invariant forall c :: 0 <= c < col ==> cache[row, c] == col - c
      invariant forall r :: 0 <= r < i ==> cache[r, col] == row - r
    {
      cache[i, col] := row - i;
    }
    assert forall c :: 0 <= c <= col ==> cache[row, c] == SuffixDistance(word1, word2, row, c);
    assert forall r :: 0 <= r <= row ==> cache[r, col] == SuffixDistance(word1, word2, r, col);
    for i := row downto 0
      invariant forall r, c :: i <= r <= row && 0 <= c <= col ==> cache[r, c] == SuffixDistance(word1, word2, r, c)
      invariant forall r :: 0 <= r <= row ==> cache[r, col] == SuffixDistance(word1, word2, r, col)
    {
      FillRow(cache, word1, word2, i);
    }
    distance := cache[0, 0];
  }

  // ------------------------------------------------------------- similarity

  /**
   * `calculate_similarity`: `1 - distance / max(len)`, and `1.0` for two
   * empty strings. It lies in `[0, 1]` and is 1 exactly for equal strings.
   */
  function Similarity(word1: string, word2: string): (s: real)
    ensures 0.0 <= s <= 1.0
    ensures s == 1.0 <==> word1 == word2
  {
    EditDistanceProperties(word1, word2);
    var maxLen := if |word1| >= |word2| then |word1| else |word2|;
    if maxLen == 0 then 1.0
    else
      var d := EditDistance(word1, word2);
      assert 0 <= d <= maxLen;
      RatioInUnit(d, maxLen);
      1.0 - (d as real) / (maxLen as real)
  }

  lemma RatioInUnit(d: nat, m: nat)
    requires 0 < m && d <= m
    ensures 0.0 <= (d as real) / (m as real) <= 1.0
    ensures (d as real) / (m as real) == 0.0 <==> d == 0
  {
    var q := (d as real) / (m as real);
    assert q * (m as real) == d as real;
  }

  method CalculateSimilarity(word1: string, word2: string) returns (similarity: real)
    ensures similarity == Similarity(word1, word2)
    ensures 0.0 <= similarity <= 1.0
  {
    var distance := LevenshteinDistance(word1, word2);
    var maxLen := if |word1| >= |word2| then |word1| else |word2|;
    if maxLen == 0 {
      return 1.0;
    }
    similarity := 1.0 - (distance as real) / (maxLen as real);
  }

  // ------------------------------------------------------- ordering of pairs

  /** A match is the pair `(similarity, phrase)` of `fuzzy_search`. */
  type Match = (real, string)

  /** Python's `a < b` on strings: by code point, a proper prefix first. */
  predicate StrLess(a: string, b: string) {
    if a == [] then b != []
    else if b == [] then false
    else if a[0] != b[0] then a[0] < b[0]
    else StrLess(a[1..], b[1..])
  }

  lemma {:induction false} StrLessIrreflexive(a: string)
    ensures !StrLess(a, a)
  {
    if a != [] {
      StrLessIrreflexive(a[1..]);
    }
  }

  lemma {:induction false} StrLessTransitive(a: string, b: string, c: string)
    requires StrLess(a, b) && StrLess(b, c)
    ensures StrLess(a, c)
  {
    if a != [] && b != [] && c != [] && a[0] == b[0] && b[0] == c[0] {
      StrLessTransitive(a[1..], b[1..], c[1..]);
    }
  }

  lemma {:induction false} StrLessTotal(a: string, b: string)
    ensures a == b || StrLess(a, b) || StrLess(b, a)
    ensures !(StrLess(a, b) && StrLess(b, a))
  {
    if a != [] && b != [] && a[0] == b[0] {
      StrLessTotal(a[1..], b[1..]);
      if a[1..] == b[1..] {
        assert a == [a[0]] + a[1..] && b == [b[0]] + b[1..];
      }
    }
  }

  /** Python's `x >= y` on `(similarity, phrase)` tuples. */
  predicate AtLeast(x: Match, y: Match) {
    x.0 > y.0 || (x.0 == y.0 && !StrLess(x.1, y.1))
  }

  /** `AtLeast` is a total order: total, transitive and antisymmetric. */
  lemma AtLeastTotalOrder(x: Match, y: Match, z: Match)
    ensures AtLeast(x, x)
    ensures AtLeast(x, y) || AtLeast(y, x)
    ensures AtLeast(x, y) && AtLeast(y, x) ==> x == y
    ensures AtLeast(x, y) && AtLeast(y, z) ==> AtLeast(x, z)
  {
    StrLessIrreflexive(x.1);
    StrLessTotal(x.1, y.1);
    StrLessTotal(y.1, z.1);
    StrLessTotal(x.1, z.1);
    if StrLess(x.1, z.1) && StrLess(z.1, y.1) {
      StrLessTransitive(x.1, z.1, y.1);
    }
    if StrLess(y.1, x.1) && StrLess(x.1, z.1) {
      StrLessTransitive(y.1, x.1, z.1);
    }
  }

  /** Sorted from the largest pair down. */
  predicate Descending(s: seq<Match>) {
    forall i, j :: 0 <= i < j < |s| ==> AtLeast(s[i], s[j])
  }

  /** A pair at least the head of a descending sequence is at least all of it. */
  lemma AtLeastAll(x: Match, s: seq<Match>)
    requires Descending(s) && s != [] && AtLeast(x, s[0])
    ensures forall j :: 0 <= j < |s| ==> AtLeast(x, s[j])
  {
    forall j | 0 <= j < |s| ensures AtLeast(x, s[j]) {
      AtLeastTotalOrder(x, s[0], s[j]);
    }
  }

  /** A rearrangement of pairs below `h`, plus one more pair below `h`, stays below `h`. */
  lemma AtLeastAllOfInsert(h: Match, x: Match, tail: seq<Match>, rest: seq<Match>)
    requires forall j :: 0 <= j < |tail| ==> AtLeast(h, tail[j])
    requires AtLeast(h, x)
    requires multiset(rest) == multiset(tail) + multiset{x}
    ensures forall j :: 0 <= j < |rest| ==> AtLeast(h, rest[j])
  {
    forall j | 0 <= j < |rest| ensures AtLeast(h, rest[j]) {
      assert rest[j] in multiset(rest);
      if rest[j] != x {
        assert rest[j] in multiset(tail);
        var k :| 0 <= k < |tail| && tail[k] == rest[j];
      }
    }
  }

  lemma DescendingCons(h: Match, s: seq<Match>)
    requires Descending(s)
    requires forall j :: 0 <= j < |s| ==> AtLeast(h, s[j])
    ensures Descending([h] + s)
  {
    var r := [h] + s;
    forall i, j | 0 <= i < j < |r| ensures AtLeast(r[i], r[j]) {
      if i > 0 {
        assert r[i] == s[i - 1] && r[j] == s[j - 1];
      }
    }
  }

  function InsertDescending(x: Match, s: seq<Match>): (r: seq<Match>)
    requires Descending(s)
    ensures multiset(r) == multiset(s) + multiset{x}
    ensures Descending(r)
  {
    if s == [] then [x]
    else if AtLeast(x, s[0]) then
      AtLeastAll(x, s);
      DescendingCons(x, s);
      [x] + s
    else
      var tail := s[1..];
      assert Descending(tail);
      var rest := InsertDescending(x, tail);
      AtLeastTotalOrder(x, s[0], x);
      assert forall j :: 0 <= j < |tail| ==> AtLeast(s[0], tail[j]) by {
        forall j | 0 <= j < |tail| ensures AtLeast(s[0], tail[j]) {
          assert tail[j] == s[j + 1];
        }
      }
      AtLeastAllOfInsert(s[0], x, tail, rest);
      DescendingCons(s[0], rest);
      assert s == [s[0]] + tail;
      [s[0]] + rest
  }

  /**
   * `matches.sort(reverse=True)`: the matches in descending order of the
   * whole pair, so that equal similarities are ordered by phrase, the
   * lexicographically largest first.
   */
  function SortDescending(s: seq<Match>): (r: seq<Match>)
    ensures multiset(r) == multiset(s)
    ensures Descending(r)
  {
    if s == [] then []
    else
      assert s == [s[0]] + s[1..];
      InsertDescending(s[0], SortDescending(s[1..]))
  }

  /**
   * Two descending arrangements of the same pairs are equal: any sort in
   * descending order, Python's included, gives the result of `SortDescending`.
   */
  lemma {:induction false} DescendingPermutationUnique(s: seq<Match>, t: seq<Match>)
    requires Descending(s) && Descending(t)
    requires multiset(s) == multiset(t)
    ensures s == t
  {
    if s == [] {
      assert |t| == |multiset(t)| == 0;
    } else {
      DescendingHeadsEqual(s, t);
      assert s == [s[0]] + s[1..] && t == [t[0]] + t[1..];
      assert multiset(s[1..]) == multiset(t[1..]) by {
        assert multiset(s) == multiset{s[0]} + multiset(s[1..]);
        assert multiset(t) == multiset{t[0]} + multiset(t[1..]);
        assert multiset(s[1..]) == multiset(s) - multiset{s[0]};
        assert multiset(t[1..]) == multiset(t) - multiset{t[0]};
      }
      DescendingPermutationUnique(s[1..], t[1..]);
    }
  }

  /** Two descending arrangements of the same pairs start with the same pair. */
  lemma DescendingHeadsEqual(s: seq<Match>, t: seq<Match>)
    requires Descending(s) && Descending(t) && s != []
    requires multiset(s) == multiset(t)
    ensures t != [] && s[0] == t[0]
  {
    assert s[0] in multiset(t);
    var k :| 0 <= k < |t| && t[k] == s[0];
    assert t[0] in multiset(s);
    var l :| 0 <= l < |s| && s[l] == t[0];
    AtLeastTotalOrder(s[0], t[0], s[0]);
    assert AtLeast(t[0], t[k]);
    assert AtLeast(s[0], s[l]);
  }

  // ------------------------------------------------------------------ search

  /** The pairs `(similarity, phrase)` that reach the threshold, in phrase order. */
  function Scored(keyword: string, phrases: seq<string>, threshold: real): seq<Match> {
    if phrases == [] then []
    else
      var rest := Scored(keyword, phrases[..|phrases| - 1], threshold);
      var phrase := phrases[|phrases| - 1];
      var similarity := Similarity(keyword, phrase);
      if similarity >= threshold then rest + [(similarity, phrase)] else rest
  }

  /**
   * Each kept pair carries the phrase's own similarity, which reaches the
   * threshold; and a phrase that reaches it is kept exactly as many times
   * as it occurs, any other pair not at all.
   */
  lemma {:induction false} ScoredExactly(keyword: string, phrases: seq<string>, threshold: real, m: Match)
    ensures m in Scored(keyword, phrases, threshold) ==>
              m.1 in phrases && m.0 == Similarity(keyword, m.1) && m.0 >= threshold
    ensures multiset(Scored(keyword, phrases, threshold))[m]
         == if m.0 == Similarity(keyword, m.1) && m.0 >= threshold then multiset(phrases)[m.1] else 0
    ensures |Scored(keyword, phrases, threshold)| <= |phrases|
  {
    if phrases != [] {
      var init := phrases[..|phrases| - 1];
      ScoredExactly(keyword, init, threshold, m);
      assert phrases == init + [phrases[|phrases| - 1]];
    }
  }

  /** What `fuzzy_search(keyword, cv_text, threshold)` returns as its list of matches. */
  function FuzzyMatches(keyword: string, cvText: string, threshold: real): seq<Match> {
    SortDescending(Scored(keyword, GetNgrams(cvText, |Words(keyword)|), threshold))
  }

  /**
   * What `fuzzy_search` promises of its matches: at most one per n-gram
   * (n = number of words of the keyword), sorted from the best pair down,
   * each an n-gram of the CV with its similarity to the keyword reaching
   * the threshold.
   */
  lemma FuzzyMatchesSound(keyword: string, cvText: string, threshold: real)
    ensures |FuzzyMatches(keyword, cvText, threshold)| <= |GetNgrams(cvText, |Words(keyword)|)|
    ensures Descending(FuzzyMatches(keyword, cvText, threshold))
    ensures forall m :: m in FuzzyMatches(keyword, cvText, threshold) ==>
              m.0 >= threshold && m.0 == Similarity(keyword, m.1) && m.1 in GetNgrams(cvText, |Words(keyword)|)
  {
    var ngrams := GetNgrams(cvText, |Words(keyword)|);
    var unsorted := Scored(keyword, ngrams, threshold);
    var matches := FuzzyMatches(keyword, cvText, threshold);
    assert matches == SortDescending(unsorted);
    forall m | m in matches
      ensures m.0 >= threshold && m.0 == Similarity(keyword, m.1) && m.1 in ngrams
    {
      assert m in multiset(unsorted);
      ScoredExactly(keyword, ngrams, threshold, m);
    }
    ScoredExactly(keyword, ngrams, threshold, (0.0, []));
    assert |matches| == |multiset(matches)| == |multiset(unsorted)| == |unsorted|;
  }

  /** Scoring one more phrase appends its pair exactly when it reaches the threshold. */
  lemma ScoredStep(keyword: string, phrases: seq<string>, i: nat, threshold: real)
    requires i < |phrases|
    ensures Scored(keyword, phrases[..i + 1], threshold)
         == Scored(keyword, phrases[..i], threshold)
            + if Similarity(keyword, phrases[i]) >= threshold then [(Similarity(keyword, phrases[i]), phrases[i])] else []
  {
    assert phrases[..i + 1][..i] == phrases[..i];
  }

  /**
   * `fuzzy_search`: scores every n-gram of the CV (n = number of words of
   * the keyword) against the keyword, keeps those reaching the threshold
   * and sorts them from the best pair down; the count is the number kept.
   */
  method FuzzySearch(keyword: string, cvText: string, threshold: real) returns (count: nat, matches: seq<Match>)
    ensures matches == FuzzyMatches(keyword, cvText, threshold)
    ensures count == |matches|
  {
    var n := |Words(keyword)|;
    var ngrams := GetNgrams(cvText, n);
    matches := [];
    for i := 0 to |ngrams|
      invariant matches == Scored(keyword, ngrams[..i], threshold)
    {
      ScoredStep(keyword, ngrams, i, threshold);
      var similarity := CalculateSimilarity(keyword, ngrams[i]);
      if similarity >= threshold {
        matches := matches + [(similarity, ngrams[i])];
      }
    }
    assert ngrams[..|ngrams|] == ngrams;
    matches := SortDescending(matches);
    count := |matches|;
  }
}
