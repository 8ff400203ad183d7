/**
 * The `KMP_ATS` matcher of src/algorithm/kmp.py: the Knuth-Morris-Pratt
 * prefix table, the occurrence count it drives, and the per-keyword
 * search that falls back to the fuzzy matcher for keywords with no exact
 * occurrence.
 */
module Kmp {
  import opened Text
  import Fuzzy

  // ------------------------------------------------------------- borders

  /** `s[..k]` is a proper prefix of `s` that is also a suffix of it. */
  predicate IsBorder(s: string, k: nat) {
    k < |s| && s[..k] == s[|s| - k..]
  }

  /** The longest border of `s` no longer than `k`. */
  function BorderAtMost(s: string, k: nat): (b: nat)
    requires k < |s|
    ensures b <= k && IsBorder(s, b)
    ensures forall l :: b < l <= k ==> !IsBorder(s, l)
  {
    if k == 0 || IsBorder(s, k) then k else BorderAtMost(s, k - 1)
  }

  /**
   * The value the prefix table holds for the prefix `s`: the length of the
   * longest proper prefix of `s` that is also a suffix of it.
   */
  function LongestBorder(s: string): (b: nat)
    requires |s| > 0
    ensures b < |s| && IsBorder(s, b)
    ensures NoBorderAbove(s, b)
  {
    BorderAtMost(s, |s| - 1)
  }

  /** Every border of `s` is at most `b` long. */
  predicate NoBorderAbove(s: string, b: nat) {
    forall k :: b < k < |s| ==> !IsBorder(s, k)
  }

  /** A border of `p[..i+1]` is a border of `p[..i]` extended by a matching character. */
  lemma ExtendBorder(p: string, i: nat, k: nat)
    requires i < |p|
    ensures IsBorder(p[..i + 1], k + 1) <==> IsBorder(p[..i], k) && p[k] == p[i]
  {
    var s, s' := p[..i], p[..i + 1];
    if IsBorder(s', k + 1) {
      assert s'[..k + 1][..k] == s[..k];
      assert s'[i - k..][..k] == s[i - k..];
      assert s'[..k + 1][k] == p[k] && s'[i - k..][k] == p[i];
    }
    if IsBorder(s, k) && p[k] == p[i] {
      assert s'[..k + 1] == s[..k] + [p[k]];
      assert s'[i - k..] == s[i - k..] + [p[i]];
    }
  }

  /** A border of a border is a border. */
  lemma BorderOfBorder(s: string, j: nat, k: nat)
    requires IsBorder(s, j) && IsBorder(s[..j], k)
    ensures IsBorder(s, k)
  {
    assert s[..k] == s[..j][..k];
    assert s[|s| - k..] == s[|s| - j..][j - k..];
  }

  /** A border shorter than another border is a border of that border. */
  lemma ShorterBorder(s: string, j: nat, k: nat)
    requires IsBorder(s, j) && IsBorder(s, k) && k < j
    ensures IsBorder(s[..j], k)
  {
    assert s[..j][..k] == s[..k];
    assert s[..j][j - k..] == s[|s| - j..][j - k..] == s[|s| - k..];
  }

  /**
   * When every border of `p[..i+1]` is at most `b`, every border of
   * `p[..i+2]` is at most `b + 1`.
   */
  lemma NoLongerBorder(p: string, i: nat, b: nat)
    requires i + 1 < |p|
    requires NoBorderAbove(p[..i + 1], b)
    ensures NoBorderAbove(p[..i + 2], b + 1)
  {
    var s := p[..i + 2];
    forall k | b + 1 < k < |s|
      ensures !IsBorder(s, k)
    {
      ExtendBorder(p, i + 1, k - 1);
    }
  }

  /** A border no other border exceeds is the longest one. */
  lemma LongestBorderUnique(s: string, b: nat)
    requires IsBorder(s, b) && NoBorderAbove(s, b)
    ensures LongestBorder(s) == b
  {
  }

  /**
   * The state at the head of the `compute_lps` loop: `length` is a border of
   * `p[..i]`, and no border of `p[..i+1]` is longer than `length + 1`.
   */
  predicate Candidate(p: string, i: nat, length: nat) {
    length < i < |p| && IsBorder(p[..i], length) && NoBorderAbove(p[..i + 1], length + 1)
  }

  /** A matching character extends the candidate into the longest border of `p[..i+1]`. */
  lemma LpsExtend(p: string, i: nat, length: nat)
    requires Candidate(p, i, length) && p[i] == p[length]
    ensures LongestBorder(p[..i + 1]) == length + 1
    ensures i + 1 < |p| ==> Candidate(p, i + 1, length + 1)
  {
    ExtendBorder(p, i, length);
    LongestBorderUnique(p[..i + 1], length + 1);
    if i + 1 < |p| {
      NoLongerBorder(p, i, length + 1);
    }
  }

  /** With no candidate left and a mismatch against `p[0]`, `p[..i+1]` has only the empty border. */
  lemma LpsZero(p: string, i: nat)
    requires Candidate(p, i, 0) && p[i] != p[0]
    ensures LongestBorder(p[..i + 1]) == 0
    ensures i + 1 < |p| ==> Candidate(p, i + 1, 0)
  {
    ExtendBorder(p, i, 0);
    LongestBorderUnique(p[..i + 1], 0);
    if i + 1 < |p| {
      NoLongerBorder(p, i, 0);
    }
  }

  /** On a mismatch the next candidate is the longest border of the current one. */
  lemma LpsFallback(p: string, i: nat, length: nat)
    requires Candidate(p, i, length) && 0 < length && p[i] != p[length]
    ensures Candidate(p, i, LongestBorder(p[..length]))
  {
    var shorter := LongestBorder(p[..length]);
    assert p[..i][..length] == p[..length];
    BorderOfBorder(p[..i], length, shorter);
    var s := p[..i + 1];
    forall k | shorter + 1 < k < |s|
      ensures !IsBorder(s, k)
    {
      ExtendBorder(p, i, k - 1);
      if k - 1 < length && IsBorder(p[..i], k - 1) {
        ShorterBorder(p[..i], length, k - 1);
      }
    }
  }

  /**
   * `compute_lps`: `lps[q]` is the length of the longest proper prefix of
   * `pattern[..q+1]` that is also a suffix of it, and the table has one
   * entry per pattern character. Each round either advances `i` or
   * shortens the candidate `length`.
   */
  method ComputeLps(pattern: string) returns (lps: array<nat>)
    ensures lps.Length == |pattern|
    ensures forall q :: 0 <= q < |pattern| ==> lps[q] == LongestBorder(pattern[..q + 1])
  {
    var m := |pattern|;
    lps := new nat[m](_ => 0);
    var length: nat := 0;
    var i: nat := 1;
    while i < m
      invariant 1 <= i && (i <= m || m == 0) && length < i
      invariant lps.Length == m
      invariant forall q :: 0 <= q < i && q < m ==> lps[q] == LongestBorder(pattern[..q + 1])
      invariant i < m ==> Candidate(pattern, i, length)
      decreases m - i, length
    {
      if pattern[i] == pattern[length] {
        LpsExtend(pattern, i, length);
        length := length + 1;
        lps[i] := length;
        i := i + 1;
      } else {
        if length != 0 {
          LpsFallback(pattern, i, length);
          var q := length - 1;
          assert lps[q] == LongestBorder(pattern[..q + 1]);
          assert pattern[..q + 1] == pattern[..length];
          length := lps[length - 1];
        } else {
          LpsZero(pattern, i);
          lps[i] := 0;
          i := i + 1;
        }
      }
    }
  }

  // ---------------------------------------------------------- occurrences

  /** The pattern occurs in `text` ending just before index `e`. */
  predicate OccursEndingAt(text: string, pattern: string, e: nat) {
    |pattern| <= e <= |text| && text[e - |pattern|..e] == pattern
  }

  /** The pattern occurs in `text` starting at `p`. */
  predicate OccursAt(text: string, pattern: string, p: nat) {
    p + |pattern| <= |text| && text[p..p + |pattern|] == pattern
  }

  /** The number of occurrences of a non-empty pattern ending at or before `e`. */
  function OccurrencesBefore(text: string, pattern: string, e: nat): nat
    requires e <= |text|
  {
    if e == 0 then 0
    else OccurrencesBefore(text, pattern, e - 1) + if OccursEndingAt(text, pattern, e) then 1 else 0
  }

  /** What `kmp_search` returns: every occurrence, overlapping ones included; none for an empty pattern. */
  function CountOccurrences(text: string, pattern: string): nat {
    if pattern == [] then 0 else OccurrencesBefore(text, pattern, |text|)
  }

  /** The start positions of the occurrences of `pattern` in `text`. */
  function MatchPositions(text: string, pattern: string): set<nat> {
    set p: nat | p <= |text| && OccursAt(text, pattern, p)
  }

  /** The start positions of the occurrences that end at or before `e`. */
  function MatchPositionsBefore(text: string, pattern: string, e: nat): set<nat> {
    set p: nat | p <= e && p + |pattern| <= e && OccursAt(text, pattern, p)
  }

  lemma {:induction false} OccurrencesBeforeCountsPositions(text: string, pattern: string, e: nat)
    requires e <= |text| && pattern != []
    ensures OccurrencesBefore(text, pattern, e) == |MatchPositionsBefore(text, pattern, e)|
  {
    if e == 0 {
      assert MatchPositionsBefore(text, pattern, e) == {};
    } else {
      OccurrencesBeforeCountsPositions(text, pattern, e - 1);
      PositionsStep(text, pattern, e);
    }
  }

  /** Moving the end from `e - 1` to `e` adds the occurrence ending at `e`, if there is one. */
  lemma PositionsStep(text: string, pattern: string, e: nat)
    requires 0 < e <= |text| && pattern != []
    ensures |MatchPositionsBefore(text, pattern, e)|
         == |MatchPositionsBefore(text, pattern, e - 1)| + if OccursEndingAt(text, pattern, e) then 1 else 0
  {
    var before, now := MatchPositionsBefore(text, pattern, e - 1), MatchPositionsBefore(text, pattern, e);
    var last := if OccursEndingAt(text, pattern, e) then {e - |pattern|} else {};
    forall p: nat
      ensures p in now <==> p in before || p in last
    {
      if p + |pattern| == e {
        assert OccursAt(text, pattern, p) <==> OccursEndingAt(text, pattern, e);
      }
    }
    assert now == before + last;
    assert before * last == {};
  }

  /**
   * The count `kmp_search` computes is the number of positions `p` with
   * `text[p..p+m] == pattern`, overlapping occurrences included.
   */
  lemma CountIsNumberOfPositions(text: string, pattern: string)
    ensures CountOccurrences(text, pattern) == if pattern == [] then 0 else |MatchPositions(text, pattern)|
  {
    if pattern != [] {
      OccurrencesBeforeCountsPositions(text, pattern, |text|);
      assert MatchPositionsBefore(text, pattern, |text|) == MatchPositions(text, pattern);
    }
  }

  /** `text[i-k..i] == pattern[..k]`: the last `k` characters read match the pattern's first `k`. */
  predicate PartialAt(text: string, pattern: string, i: nat, k: nat) {
    k <= i <= |text| && k <= |pattern| && text[i - k..i] == pattern[..k]
  }

  /** No partial match at `i` is longer than `b`. */
  predicate NoPartialAbove(text: string, pattern: string, i: nat, b: nat) {
    forall k :: b < k <= |pattern| ==> !PartialAt(text, pattern, i, k)
  }

  /** No longer partial match at `i` can be extended by the next text character. */
  predicate NoneLongerExtends(text: string, pattern: string, i: nat, j: nat) {
    forall k :: j < k < |pattern| && PartialAt(text, pattern, i, k) ==> i < |text| && text[i] != pattern[k]
  }

  lemma PartialStep(text: string, pattern: string, i: nat, k: nat)
    requires i < |text| && 0 < k <= |pattern|
    ensures PartialAt(text, pattern, i + 1, k) <==> PartialAt(text, pattern, i, k - 1) && text[i] == pattern[k - 1]
  {
    if k <= i + 1 {
      assert text[i + 1 - k..i + 1] == text[i + 1 - k..i] + [text[i]];
      assert pattern[..k] == pattern[..k - 1] + [pattern[k - 1]];
    }
  }

  /** A shorter partial match inside a partial match of length `j` is a border of `pattern[..j]`. */
  lemma ShorterPartialIsBorder(text: string, pattern: string, i: nat, j: nat, k: nat)
    requires PartialAt(text, pattern, i, j) && k < j
    ensures PartialAt(text, pattern, i, k) <==> IsBorder(pattern[..j], k)
  {
    assert text[i - k..i] == text[i - j..i][j - k..];
    assert pattern[..j][..k] == pattern[..k];
  }

  /**
   * The state at the head of the scan loop: the last `j` characters read
   * match the pattern's first `j`, no longer partial match can be extended
   * by the next character, and `count` is the number of occurrences ending
   * at or before `i`.
   */
  predicate Scanning(text: string, pattern: string, i: nat, j: nat, count: nat) {
    j < |pattern| && j <= i <= |text|
    && PartialAt(text, pattern, i, j) && NoneLongerExtends(text, pattern, i, j)
    && count == OccurrencesBefore(text, pattern, i)
  }

  /** The state after the comparison step: `j` may have reached `m`, an occurrence not yet counted. */
  predicate Compared(text: string, pattern: string, i: nat, j: nat, count: nat) {
    j <= |pattern| && i <= |text| && PartialAt(text, pattern, i, j)
    && (j < |pattern| ==> NoneLongerExtends(text, pattern, i, j))
    && count + (if j == |pattern| then 1 else 0) == OccurrencesBefore(text, pattern, i)
  }

  /** Reading a matching character extends the partial match; no longer one exists. */
  lemma Advance(text: string, pattern: string, i: nat, j: nat, count: nat)
    requires Scanning(text, pattern, i, j, count) && i < |text| && text[i] == pattern[j]
    ensures Compared(text, pattern, i + 1, j + 1, count)
  {
    PartialStep(text, pattern, i, j + 1);
    var next := i + 1;
    forall k | j + 1 < k <= |pattern|
      ensures !PartialAt(text, pattern, next, k)
    {
      PartialStep(text, pattern, i, k);
    }
    OccurrenceStep(text, pattern, i);
  }

  /** Without a matching character the comparison step changes nothing. */
  lemma NoAdvance(text: string, pattern: string, i: nat, j: nat, count: nat)
    requires Scanning(text, pattern, i, j, count)
    ensures Compared(text, pattern, i, j, count)
  {
  }

  /** An occurrence ends at `i + 1` exactly when the whole pattern is a partial match there. */
  lemma OccurrenceStep(text: string, pattern: string, i: nat)
    requires i < |text| && pattern != []
    ensures OccurrencesBefore(text, pattern, i + 1)
         == OccurrencesBefore(text, pattern, i) + if PartialAt(text, pattern, i + 1, |pattern|) then 1 else 0
  {
    assert pattern[..|pattern|] == pattern;
  }

  /** After a full match is counted, the longest border of the pattern is the partial match to resume from. */
  lemma AfterMatch(text: string, pattern: string, i: nat, count: nat)
    requires pattern != [] && Compared(text, pattern, i, |pattern|, count)
    ensures Scanning(text, pattern, i, LongestBorder(pattern), count + 1)
  {
    var m := |pattern|;
    assert pattern[..m] == pattern;
    ShorterPartialIsBorder(text, pattern, i, m, LongestBorder(pattern));
    forall k | LongestBorder(pattern) < k < m
      ensures !PartialAt(text, pattern, i, k)
    {
      ShorterPartialIsBorder(text, pattern, i, m, k);
    }
  }

  /** On a mismatch the table entry `lps[j-1]` is the next candidate worth trying. */
  lemma Fallback(text: string, pattern: string, i: nat, j: nat, count: nat)
    requires Compared(text, pattern, i, j, count) && 0 < j < |pattern|
    requires i < |text| && text[i] != pattern[j]
    ensures Scanning(text, pattern, i, LongestBorder(pattern[..j]), count)
  {
    var b := LongestBorder(pattern[..j]);
    ShorterPartialIsBorder(text, pattern, i, j, b);
    forall k | b < k < j
      ensures !PartialAt(text, pattern, i, k)
    {
      ShorterPartialIsBorder(text, pattern, i, j, k);
    }
  }

  /** On a mismatch with nothing matched the scan moves on, and no occurrence ends there. */
  lemma Skip(text: string, pattern: string, i: nat, count: nat)
    requires Compared(text, pattern, i, 0, count) && pattern != []
    requires i < |text| && text[i] != pattern[0]
    ensures Scanning(text, pattern, i + 1, 0, count)
  {
    var next := i + 1;
    forall k | 0 < k <= |pattern|
      ensures !PartialAt(text, pattern, next, k)
    {
      PartialStep(text, pattern, i, k);
    }
    OccurrenceStep(text, pattern, i);
    assert pattern[..0] == text[next..next];
  }

  /** When the character after a partial match agrees, or the text is exhausted, the state is kept. */
  lemma Keep(text: string, pattern: string, i: nat, j: nat, count: nat)
    requires Compared(text, pattern, i, j, count) && j < |pattern|
    ensures Scanning(text, pattern, i, j, count)
  {
  }

  /**
   * `kmp_search`: the number of occurrences of `pattern` in `text`,
   * overlapping ones included, 0 for an empty pattern. After a full match
   * the scan resumes from `lps[m-1]`.
   */
  method KmpSearch(text: string, pattern: string) returns (count: nat)
    ensures count == CountOccurrences(text, pattern)
  {
    var n, m := |text|, |pattern|;
    if m == 0 {
      return 0;
    }
    var lps := ComputeLps(pattern);
    count := 0;
    var i: nat, j: nat := 0, 0;
    assert pattern[..0] == text[0..0];
    while i < n
      invariant Scanning(text, pattern, i, j, count)
      invariant lps.Length == m && forall q :: 0 <= q < m ==> lps[q] == LongestBorder(pattern[..q + 1])
      decreases n - i, j
    {
      if text[i] == pattern[j] {
        Advance(text, pattern, i, j, count);
        i := i + 1;
        j := j + 1;
      } else {
        NoAdvance(text, pattern, i, j, count);
      }
      if j == m {
        AfterMatch(text, pattern, i, count);
        count := count + 1;
        assert pattern[..m] == pattern;
        assert lps[m - 1] == LongestBorder(pattern);
        j := lps[j - 1];
      } else if i < n && text[i] != pattern[j] {
        if j != 0 {
          Fallback(text, pattern, i, j, count);
          var q := j - 1;
          assert lps[q] == LongestBorder(pattern[..q + 1]);
          assert pattern[..q + 1] == pattern[..j];
          j := lps[j - 1];
        } else {
          Skip(text, pattern, i, count);
          i := i + 1;
        }
      } else {
        Keep(text, pattern, i, j, count);
      }
    }
  }

  // --------------------------------------------------------------- KMP_ATS

  /** A fuzzy result entry `{'count': ..., 'matches': ...}`. */
  datatype FuzzyResult = FuzzyResult(count: nat, matches: seq<Fuzzy.Match>)

  /**
   * The result `fuzzy_search` gives for a keyword against the CV text: the
   * phrases of the keyword's word count that reach the threshold, best
   * first, and how many there are.
   */
  function FuzzyResultOf(keyword: string, cvText: string, threshold: real): (r: FuzzyResult)
    ensures r.count == |r.matches| <= |Fuzzy.GetNgrams(cvText, |Words(keyword)|)|
    ensures Fuzzy.Descending(r.matches)
    ensures forall m :: m in r.matches ==>
              m.0 >= threshold && m.0 == Fuzzy.Similarity(keyword, m.1) && m.1 in Fuzzy.GetNgrams(cvText, |Words(keyword)|)
  {
    var matches := Fuzzy.FuzzyMatches(keyword, cvText, threshold);
    Fuzzy.FuzzyMatchesSound(keyword, cvText, threshold);
    FuzzyResult(|matches|, matches)
  }

  /**
   * The fuzzy search as a function of the keyword, for a fixed CV text and
   * threshold. The tables below take it as a parameter `search`, so that
   * their properties hold whatever the search returns.
   */
  function FuzzySearchOf(cvText: string, threshold: real): string -> FuzzyResult {
    k => FuzzyResultOf(k, cvText, threshold)
  }

  /** `exact_results` after the keywords have been searched: each keyword mapped to its occurrence count. */
  function ExactTable(keywords: seq<string>, cvText: string): map<string, nat> {
    map k | k in keywords :: CountOccurrences(cvText, k)
  }

  /**
   * `fuzzy_results` after the keywords have been searched: each keyword
   * without an exact occurrence mapped to its fuzzy search result.
   */
  function FuzzyTable(keywords: seq<string>, cvText: string, search: string -> FuzzyResult): map<string, FuzzyResult> {
    map k | k in keywords && CountOccurrences(cvText, k) == 0 :: search(k)
  }

  /** The exact total `search_keywords` returns: summed over the keyword list, duplicates included. */
  function ExactTotal(keywords: seq<string>, cvText: string): nat {
    if keywords == [] then 0
    else ExactTotal(keywords[..|keywords| - 1], cvText) + CountOccurrences(cvText, keywords[|keywords| - 1])
  }

  /** The fuzzy total `search_keywords` returns: summed over the keywords with no exact occurrence. */
  function FuzzyTotal(keywords: seq<string>, cvText: string, search: string -> FuzzyResult): nat {
    if keywords == [] then 0
    else
      var last := keywords[|keywords| - 1];
      FuzzyTotal(keywords[..|keywords| - 1], cvText, search)
        + if CountOccurrences(cvText, last) == 0 then search(last).count else 0
  }

  /** `[keyword.lower() for keyword in keywords]` */
  function LowerAll(keywords: seq<string>): seq<string> {
    if keywords == [] then [] else [Lower(keywords[0])] + LowerAll(keywords[1..])
  }

  /** The stored keywords are the given ones, in order, each lower-cased. */
  lemma {:induction false} LowerAllIsLowerCase(keywords: seq<string>)
    ensures |LowerAll(keywords)| == |keywords|
    ensures forall i :: 0 <= i < |keywords| ==> LowerAll(keywords)[i] == Lower(keywords[i])
    ensures forall i :: 0 <= i < |keywords| ==> IsLowerCase(LowerAll(keywords)[i])
  {
    if keywords != [] {
      LowerAllIsLowerCase(keywords[1..]);
      LowerIsLowerCase(keywords[0]);
      forall i | 0 < i < |keywords|
        ensures LowerAll(keywords)[i] == Lower(keywords[i]) && IsLowerCase(LowerAll(keywords)[i])
      {
        var prev := i - 1;
        assert LowerAll(keywords)[i] == LowerAll(keywords[1..])[prev];
        LowerIsLowerCase(keywords[i]);
      }
    }
  }

  /** Searching one more keyword adds or refreshes that keyword's exact entry and count alone. */
  lemma ExactStep(keywords: seq<string>, i: nat, cvText: string)
    requires i < |keywords|
    ensures ExactTable(keywords[..i + 1], cvText) == ExactTable(keywords[..i], cvText)[keywords[i] := CountOccurrences(cvText, keywords[i])]
    ensures ExactTotal(keywords[..i + 1], cvText) == ExactTotal(keywords[..i], cvText) + CountOccurrences(cvText, keywords[i])
  {
    var ks := keywords[..i + 1];
    assert ks[..|ks| - 1] == keywords[..i];
    assert ks == keywords[..i] + [keywords[i]];
  }

  /** Searching one more keyword adds its fuzzy entry and count when it has no exact occurrence. */
  lemma FuzzyStep(keywords: seq<string>, i: nat, cvText: string, search: string -> FuzzyResult)
    requires i < |keywords|
    ensures FuzzyTable(keywords[..i + 1], cvText, search)
         == if CountOccurrences(cvText, keywords[i]) == 0
            then FuzzyTable(keywords[..i], cvText, search)[keywords[i] := search(keywords[i])]
            else FuzzyTable(keywords[..i], cvText, search)
    ensures FuzzyTotal(keywords[..i + 1], cvText, search)
         == FuzzyTotal(keywords[..i], cvText, search)
            + if CountOccurrences(cvText, keywords[i]) == 0 then search(keywords[i]).count else 0
  {
    var ks := keywords[..i + 1];
    assert ks[..|ks| - 1] == keywords[..i];
    assert ks == keywords[..i] + [keywords[i]];
  }

  /** The two tables and the two running totals of `search_keywords`. */
  datatype Tables = Tables(exact: map<string, nat>, fuzzy: map<string, FuzzyResult>, totalExact: nat, totalFuzzy: nat)

  /**
   * One round of the keyword loop: the keyword's exact count is stored and
   * added; when it is 0, its fuzzy result is stored and its count added.
   */
  function Round(t: Tables, keyword: string, cvText: string, search: string -> FuzzyResult): Tables {
    var c := CountOccurrences(cvText, keyword);
    if c == 0 then
      var f := search(keyword);
      Tables(t.exact[keyword := c], t.fuzzy[keyword := f], t.totalExact + c, t.totalFuzzy + f.count)
    else
      Tables(t.exact[keyword := c], t.fuzzy, t.totalExact + c, t.totalFuzzy)
  }

  /** The tables and totals after the first `i` keywords, starting from empty ones. */
  function Searched(keywords: seq<string>, i: nat, cvText: string, search: string -> FuzzyResult): Tables
    requires i <= |keywords|
  {
    if i == 0 then Tables(map[], map[], 0, 0)
    else Round(Searched(keywords, i - 1, cvText, search), keywords[i - 1], cvText, search)
  }

  /**
   * After `i` rounds the exact table maps every keyword seen to its count,
   * the fuzzy table maps exactly those without an exact occurrence to their
   * fuzzy result, and the totals are the sums over the keywords seen.
   */
  lemma {:induction false} SearchedTables(keywords: seq<string>, i: nat, cvText: string, search: string -> FuzzyResult)
    requires i <= |keywords|
    ensures Searched(keywords, i, cvText, search)
         == Tables(ExactTable(keywords[..i], cvText), FuzzyTable(keywords[..i], cvText, search),
                   ExactTotal(keywords[..i], cvText), FuzzyTotal(keywords[..i], cvText, search))
  {
    if i > 0 {
      SearchedTables(keywords, i - 1, cvText, search);
      ExactStep(keywords, i - 1, cvText);
      FuzzyStep(keywords, i - 1, cvText, search);
    }
  }

  /** After the whole keyword list, the tables and totals are those of the whole list. */
  lemma SearchedAll(keywords: seq<string>, cvText: string, search: string -> FuzzyResult)
    ensures Searched(keywords, |keywords|, cvText, search)
         == Tables(ExactTable(keywords, cvText), FuzzyTable(keywords, cvText, search),
                   ExactTotal(keywords, cvText), FuzzyTotal(keywords, cvText, search))
  {
    SearchedTables(keywords, |keywords|, cvText, search);
    assert keywords[..|keywords|] == keywords;
  }

  /**
   * The body of the keyword loop of `search_keywords`: the exact count of
   * the keyword by KMP is stored and added, and when it is 0 the result of
   * the fuzzy search is stored and its count added.
   */
  method SearchRound(t: Tables, keyword: string, cvText: string, threshold: real) returns (t': Tables)
    ensures t' == Round(t, keyword, cvText, FuzzySearchOf(cvText, threshold))
  {
    var exactMatches := KmpSearch(cvText, keyword);
    t' := t.(exact := t.exact[keyword := exactMatches], totalExact := t.totalExact + exactMatches);
    if exactMatches == 0 {
      var fuzzyCount, fuzzyMatches := Fuzzy.FuzzySearch(keyword, cvText, threshold);
      t' := t'.(fuzzy := t'.fuzzy[keyword := FuzzyResult(fuzzyCount, fuzzyMatches)], totalFuzzy := t'.totalFuzzy + fuzzyCount);
    }
  }

  /** The totals add up over consecutive parts of the keyword list, so a repeated keyword counts again. */
  lemma {:induction false} TotalsAdd(a: seq<string>, b: seq<string>, cvText: string, search: string -> FuzzyResult)
    ensures ExactTotal(a + b, cvText) == ExactTotal(a, cvText) + ExactTotal(b, cvText)
    ensures FuzzyTotal(a + b, cvText, search) == FuzzyTotal(a, cvText, search) + FuzzyTotal(b, cvText, search)
  {
    if b != [] {
      var init := b[..|b| - 1];
      TotalsAdd(a, init, cvText, search);
      assert (a + b)[..|a + b| - 1] == a + init;
    } else {
      assert a + b == a;
    }
  }

  /** When every keyword occurs exactly, nothing is searched fuzzily and each keyword adds at least one. */
  lemma {:induction false} FuzzyTotalOnlyWithoutExact(keywords: seq<string>, cvText: string, search: string -> FuzzyResult)
    requires forall i :: 0 <= i < |keywords| ==> CountOccurrences(cvText, keywords[i]) > 0
    ensures FuzzyTotal(keywords, cvText, search) == 0
    ensures FuzzyTable(keywords, cvText, search) == map[]
    ensures ExactTotal(keywords, cvText) >= |keywords|
  {
    if keywords != [] {
      FuzzyTotalOnlyWithoutExact(keywords[..|keywords| - 1], cvText, search);
    }
  }

  /** The `KMP_ATS` object: the CV text, the last keyword list and the two result tables. */
  class KmpAts {
    var cvText: string
    var keywords: seq<string>
    var exactResults: map<string, nat>
    var fuzzyResults: map<string, FuzzyResult>
    var threshold: real

    constructor ()
      ensures cvText == [] && keywords == []
      ensures exactResults == map[] && fuzzyResults == map[]
      ensures threshold == 0.65
    {
      cvText := [];
      keywords := [];
      exactResults := map[];
      fuzzyResults := map[];
      threshold := 0.65;
    }

    /** `process_cv`: stores the CV text lower-cased, for a case-insensitive search. */
    method ProcessCv(text: string)
      modifies this
      ensures cvText == Lower(text) && IsLowerCase(cvText)
      ensures keywords == old(keywords) && threshold == old(threshold)
      ensures exactResults == old(exactResults) && fuzzyResults == old(fuzzyResults)
    {
      cvText := Lower(text);
      LowerIsLowerCase(text);
    }

    /**
     * `search_keywords`: lower-cases the keywords, resets both tables, then
     * for each keyword in order stores its exact count and, when that is 0,
     * the result of the fuzzy search; returns the two totals and the tables.
     * The tables are built in the returned maps and stored in the fields at
     * the end, which leaves the caller the same state.
     */
    method SearchKeywords(input: seq<string>)
      returns (totalExact: nat, totalFuzzy: nat, exact: map<string, nat>, fuzzy: map<string, FuzzyResult>)
      modifies this
      ensures keywords == LowerAll(input)
      ensures cvText == old(cvText) && threshold == old(threshold)
      ensures exactResults == ExactTable(keywords, cvText) && exact == exactResults
      ensures fuzzyResults == FuzzyTable(keywords, cvText, FuzzySearchOf(cvText, threshold)) && fuzzy == fuzzyResults
      ensures totalExact == ExactTotal(keywords, cvText)
      ensures totalFuzzy == FuzzyTotal(keywords, cvText, FuzzySearchOf(cvText, threshold))
    {
      keywords := LowerAll(input);
      var ks, text, limit := keywords, cvText, threshold;
      var t := Tables(map[], map[], 0, 0);
      for i := 0 to |ks|
        invariant keywords == ks && cvText == text && threshold == limit
        invariant t == Searched(ks, i, text, FuzzySearchOf(text, limit))
      {
        t := SearchRound(t, ks[i], text, limit);
      }
      SearchedAll(ks, text, FuzzySearchOf(text, limit));
      exact, fuzzy, totalExact, totalFuzzy := t.exact, t.fuzzy, t.totalExact, t.totalFuzzy;
      exactResults, fuzzyResults := exact, fuzzy;
    }
  }
}
