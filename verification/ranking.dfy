/**
 * The search callback of the desktop page: reads the number of results to
 * show, runs the processor over every CV of the dataset, keeps the CVs with
 * at least one match, ranks them by match count (a stable sort, highest
 * first), keeps the first `top_n` and sizes the result grid.
 *
 * The two text fields' values are parameters of the callback; widgets,
 * cards and the per-keyword summary lines are not modelled beyond the list
 * of controls placed in the grid.
 */
module Ranking {
  import opened Text
  import opened AtsProcessor

  // ----------------------------------------------------------------------
  // Python's int() on a text field value, and str() of an int.

  function DigitValue(c: char): nat
    requires IsDigit(c)
  {
    (c as int - '0' as int) as nat
  }

  function DigitChar(d: nat): (c: char)
    requires d < 10
    ensures IsDigit(c) && DigitValue(c) == d
  {
    ('0' as int + d) as char
  }

  /** Digits, with single underscores allowed between two digits. */
  predicate ValidDigits(d: string) {
    && d != [] && IsDigit(d[0]) && IsDigit(d[|d| - 1])
    && (forall i :: 0 <= i < |d| ==> IsDigit(d[i]) || d[i] == '_')
    && (forall i :: 0 <= i < |d| - 1 ==> d[i] == '_' ==> d[i + 1] != '_')
  }

  /** The value of a digit string, underscores ignored. */
  function DigitsValue(d: string): nat
    requires forall i :: 0 <= i < |d| ==> IsDigit(d[i]) || d[i] == '_'
  {
    if d == [] then 0
    else
      var last := d[|d| - 1];
      if last == '_' then DigitsValue(d[..|d| - 1]) else 10 * DigitsValue(d[..|d| - 1]) + DigitValue(last)
  }

  /**
   * `int(value)`: `None` raises `TypeError`; a string is stripped and must
   * then be an optional sign followed by digits, or `ValueError` is raised.
   * Both errors are `None` here.
   */
  function ParseInt(v: Option<string>): Option<int> {
    match v
    case None => None
    case Some(s) =>
      var t := Strip(s);
      var signed := t != [] && (t[0] == '-' || t[0] == '+');
      var digits := if signed then t[1..] else t;
      if !ValidDigits(digits) then None
      else if signed && t[0] == '-' then Some(-(DigitsValue(digits) as int))
      else Some(DigitsValue(digits))
  }

  /** `str(n)` for `n >= 0`. */
  function ShowNat(n: nat): string {
    if n < 10 then [DigitChar(n)] else ShowNat(n / 10) + [DigitChar(n % 10)]
  }

  /** `str(n)` */
  function ShowInt(n: int): string {
    if n < 0 then "-" + ShowNat(-n) else ShowNat(n)
  }

  lemma {:induction false} ShowNatDigits(n: nat)
    ensures ValidDigits(ShowNat(n)) && DigitsValue(ShowNat(n)) == n
  {
    var s := ShowNat(n);
    if n >= 10 {
      ShowNatDigits(n / 10);
      var t := ShowNat(n / 10);
      assert s == t + [DigitChar(n % 10)];
      assert s[..|s| - 1] == t;
      assert forall i :: 0 <= i < |s| - 1 ==> s[i] == t[i];
    }
  }

  lemma ShowIntShape(n: int)
    ensures Stripped(ShowInt(n))
    ensures n < 0 ==> ShowInt(n)[0] == '-' && ShowInt(n)[1..] == ShowNat(-n) && ValidDigits(ShowNat(-n))
    ensures n >= 0 ==> ShowInt(n) == ShowNat(n) && ValidDigits(ShowNat(n))
  {
    var s := ShowInt(n);
    var d := ShowNat(if n < 0 then -n else n);
    ShowNatDigits(if n < 0 then -n else n);
    if n < 0 {
      assert s == ['-'] + d;
      assert s[1..] == d && s[|s| - 1] == d[|d| - 1];
    }
  }

  /** Reading back what `str` writes gives the number: `int(str(n)) == n`. */
  lemma ParseShowInt(n: int)
    ensures ParseInt(Some(ShowInt(n))) == Some(n)
  {
    var s := ShowInt(n);
    ShowIntShape(n);
    StripOfStripped(s);
    ShowNatDigits(if n < 0 then -n else n);
    if n >= 0 {
      assert s[0] != '-' && s[0] != '+';
    }
  }

  /** A value `int` accepts holds at least one digit. */
  lemma ParseIntNeedsDigit(s: string)
    requires ParseInt(Some(s)).Some?
    ensures exists i :: 0 <= i < |s| && IsDigit(s[i])
  {
    var t := Strip(s);
    var signed := t != [] && (t[0] == '-' || t[0] == '+');
    var digits := if signed then t[1..] else t;
    assert IsDigit(digits[0]);
    assert IsDigit(t[if signed then 1 else 0]);
    StripChars(s);
  }

  // ----------------------------------------------------------------------
  // Ranking.

  /** One CV of the dataset: its name and its text. */
  datatype Cv = Cv(name: string, cvText: Option<string>)

  /**
   * The processor after `load_cv(cv)` and `search_keywords(raw)`: it holds
   * the CV's normalised text, the parsed keywords and both dictionaries of
   * that search under its own algorithm and threshold.
   */
  predicate Searched(p: Processor, cv: Cv, raw: PyValue)
    reads p
  {
    && p.cvText == NormaliseCv(cv.cvText)
    && p.keywords == ParseKeywords(raw)
    && p.exactResults == ExactResults(p.keywords, p.cvText, p.algorithm, p.bm, p.aho)
    && p.fuzzyResults == FuzzyResults(p.keywords, p.cvText, p.algorithm, p.fuzzyThreshold, p.bm, p.aho)
  }

  /** One collected result (the summary lines are not modelled). */
  datatype Found = Found(name: string, matchCount: nat)

  /** `total_exact + total_fuzzy` for one CV, with the processor's settings. */
  function MatchCount(raw: PyValue, algorithm: string, threshold: real, bm: BmSearch, aho: AhoSearch): Cv -> nat {
    (cv: Cv) => var o := SearchOutcome(raw, NormaliseCv(cv.cvText), algorithm, threshold, bm, aho); o.exact + o.fuzzy
  }

  /** The CVs with at least one match, in dataset order, with their counts. */
  function Collected(cvs: seq<Cv>, count: Cv -> nat): seq<Found> {
    if cvs == [] then []
    else
      var last := cvs[|cvs| - 1];
      Collected(cvs[..|cvs| - 1], count) + if count(last) > 0 then [Found(last.name, count(last))] else []
  }

  lemma CollectedStep(cvs: seq<Cv>, i: nat, count: Cv -> nat)
    requires i < |cvs|
    ensures Collected(cvs[..i + 1], count)
         == Collected(cvs[..i], count) + if count(cvs[i]) > 0 then [Found(cvs[i].name, count(cvs[i]))] else []
  {
    assert cvs[..i + 1][..i] == cvs[..i];
  }

  /** Collecting keeps dataset order: it distributes over concatenation. */
  lemma {:induction false} CollectedAppend(a: seq<Cv>, b: seq<Cv>, count: Cv -> nat)
    ensures Collected(a + b, count) == Collected(a, count) + Collected(b, count)
  {
    if b == [] {
      assert a + b == a;
    } else {
      var b' := b[..|b| - 1];
      assert (a + b)[..|a + b| - 1] == a + b';
      assert (a + b)[|a + b| - 1] == b[|b| - 1];
      CollectedAppend(a, b', count);
    }
  }

  /** Every collected CV has a positive count, and each comes from one CV of the dataset. */
  lemma {:induction false} CollectedPositive(cvs: seq<Cv>, count: Cv -> nat)
    ensures |Collected(cvs, count)| <= |cvs|
    ensures forall f :: f in Collected(cvs, count) ==>
              f.matchCount > 0 && exists cv :: cv in cvs && cv.name == f.name && count(cv) == f.matchCount
  {
    if cvs != [] {
      CollectedPositive(cvs[..|cvs| - 1], count);
      assert forall cv :: cv in cvs[..|cvs| - 1] ==> cv in cvs;
    }
  }

  predicate NonIncreasing(s: seq<Found>) {
    forall i, j :: 0 <= i < j < |s| ==> s[i].matchCount >= s[j].matchCount
  }

  /** The results with count `c`, in order. */
  function WithCount(s: seq<Found>, c: nat): seq<Found> {
    if s == [] then []
    else (if s[0].matchCount == c then [s[0]] else []) + WithCount(s[1..], c)
  }

  /** Inserts `x` after every result whose count is at least its own. */
  function InsertByCount(t: seq<Found>, x: Found): seq<Found> {
    if t == [] then [x]
    else if t[0].matchCount >= x.matchCount then [t[0]] + InsertByCount(t[1..], x)
    else [x] + t
  }

  /** `sorted(results, key=lambda x: x['match_count'], reverse=True)` */
  function SortByCount(s: seq<Found>): seq<Found> {
    if s == [] then [] else InsertByCount(SortByCount(s[..|s| - 1]), s[|s| - 1])
  }

  lemma {:induction false} WithCountAppend(a: seq<Found>, b: seq<Found>, c: nat)
    ensures WithCount(a + b, c) == WithCount(a, c) + WithCount(b, c)
  {
    if a == [] {
      assert a + b == b;
    } else {
      assert (a + b)[0] == a[0] && (a + b)[1..] == a[1..] + b;
      WithCountAppend(a[1..], b, c);
    }
  }

  lemma {:induction false} WithCountNone(t: seq<Found>, c: nat)
    requires forall i :: 0 <= i < |t| ==> t[i].matchCount != c
    ensures WithCount(t, c) == []
  {
    if t != [] {
      WithCountNone(t[1..], c);
    }
  }

  lemma {:induction false} InsertMembers(t: seq<Found>, x: Found)
    ensures forall y :: y in InsertByCount(t, x) <==> y in t || y == x
    ensures multiset(InsertByCount(t, x)) == multiset(t) + multiset{x}
  {
    if t != [] && t[0].matchCount >= x.matchCount {
      InsertMembers(t[1..], x);
      assert t == [t[0]] + t[1..];
    }
  }

  /** A result with at least the counts of a ranked list can go in front of it. */
  lemma ConsNonIncreasing(x: Found, r: seq<Found>)
    requires NonIncreasing(r) && forall y :: y in r ==> y.matchCount <= x.matchCount
    ensures NonIncreasing([x] + r)
  {
    var xr := [x] + r;
    forall i, j | 0 <= i < j < |xr|
      ensures xr[i].matchCount >= xr[j].matchCount
    {
      assert xr[j] == r[j - 1];
      if i > 0 {
        assert xr[i] == r[i - 1];
      }
    }
  }

  lemma {:induction false} InsertNonIncreasing(t: seq<Found>, x: Found)
    requires NonIncreasing(t)
    ensures NonIncreasing(InsertByCount(t, x))
  {
    if t == [] {
      assert [x][1..] == [];
    } else if t[0].matchCount >= x.matchCount {
      NonIncreasingTail(t);
      InsertNonIncreasing(t[1..], x);
      InsertMembers(t[1..], x);
      assert forall y :: y in t[1..] ==> y in t;
      ConsNonIncreasing(t[0], InsertByCount(t[1..], x));
    } else {
      NonIncreasingTail(t);
      ConsNonIncreasing(x, t);
    }
  }

  lemma NonIncreasingTail(t: seq<Found>)
    requires NonIncreasing(t) && t != []
    ensures NonIncreasing(t[1..])
    ensures forall i :: 0 <= i < |t| ==> t[i].matchCount <= t[0].matchCount
    ensures forall y :: y in t ==> y.matchCount <= t[0].matchCount
  {
    forall i, j | 0 <= i < j < |t[1..]|
      ensures t[1..][i].matchCount >= t[1..][j].matchCount
    {
      assert t[1..][i] == t[i + 1] && t[1..][j] == t[j + 1];
    }
  }

  lemma {:induction false} InsertWithCount(t: seq<Found>, x: Found, c: nat)
    requires NonIncreasing(t)
    ensures WithCount(InsertByCount(t, x), c) == WithCount(t, c) + if x.matchCount == c then [x] else []
  {
    var r := InsertByCount(t, x);
    if t == [] {
      assert [x][1..] == [];
    } else {
      NonIncreasingTail(t);
      var head := if t[0].matchCount == c then [t[0]] else [];
      assert WithCount(t, c) == head + WithCount(t[1..], c);
      if t[0].matchCount >= x.matchCount {
        InsertWithCount(t[1..], x, c);
        var r' := InsertByCount(t[1..], x);
        assert r == [t[0]] + r';
        assert r[0] == t[0] && r[1..] == r';
        assert WithCount(r, c) == head + WithCount(r', c);
      } else {
        assert r[0] == x && r[1..] == t;
        assert WithCount(r, c) == (if x.matchCount == c then [x] else []) + WithCount(t, c);
        if x.matchCount == c {
          WithCountNone(t, c);
        }
      }
    }
  }

  /**
   * The ranking is Python's stable sort on the count, highest first: it is
   * non-increasing, a permutation, and the results with any one count keep
   * their original order.
   */
  lemma {:induction false} SortByCountSpec(s: seq<Found>)
    ensures NonIncreasing(SortByCount(s))
    ensures multiset(SortByCount(s)) == multiset(s)
    ensures forall c :: WithCount(SortByCount(s), c) == WithCount(s, c)
  {
    SortNonIncreasing(s);
    SortPermutes(s);
    forall c
      ensures WithCount(SortByCount(s), c) == WithCount(s, c)
    {
      SortStable(s, c);
    }
  }

  lemma {:induction false} SortNonIncreasing(s: seq<Found>)
    ensures NonIncreasing(SortByCount(s))
  {
    if s != [] {
      SortNonIncreasing(s[..|s| - 1]);
      InsertNonIncreasing(SortByCount(s[..|s| - 1]), s[|s| - 1]);
    }
  }

  lemma {:induction false} SortPermutes(s: seq<Found>)
    ensures multiset(SortByCount(s)) == multiset(s)
  {
    if s != [] {
      var init, last := s[..|s| - 1], s[|s| - 1];
      SortPermutes(init);
      InsertMembers(SortByCount(init), last);
      assert s == init + [last];
    }
  }

  lemma {:induction false} SortStable(s: seq<Found>, c: nat)
    ensures WithCount(SortByCount(s), c) == WithCount(s, c)
  {
    if s != [] {
      var init, last := s[..|s| - 1], s[|s| - 1];
      SortStable(init, c);
      SortNonIncreasing(init);
      InsertWithCount(SortByCount(init), last, c);
      assert s == init + [last];
      WithCountAppend(init, [last], c);
      assert [last][1..] == [];
    }
  }

  /** The first result of a non-increasing list has the highest count. */
  lemma FirstIsMax(t: seq<Found>, y: Found)
    requires NonIncreasing(t) && y in t
    ensures t[0].matchCount >= y.matchCount
  {
  }

  lemma {:induction false} WithCountIn(t: seq<Found>, c: nat, y: Found)
    requires y in WithCount(t, c)
    ensures y in t && y.matchCount == c
  {
    if t != [] && y !in (if t[0].matchCount == c then [t[0]] else []) {
      WithCountIn(t[1..], c, y);
    }
  }

  lemma {:induction false} InWithCount(t: seq<Found>, y: Found)
    requires y in t
    ensures y in WithCount(t, y.matchCount)
  {
    if t[0] != y {
      InWithCount(t[1..], y);
    }
  }

  lemma GroupOfFirst(t: seq<Found>)
    ensures t != [] ==> WithCount(t, t[0].matchCount) != []
    ensures WithCount([], 0) == []
  {
  }

  /**
   * Stability pins the order down: a non-increasing list that keeps the
   * order of every group of equal counts is the same list.
   */
  lemma {:induction false} StableOrderUnique(t: seq<Found>, u: seq<Found>)
    requires NonIncreasing(t) && NonIncreasing(u)
    requires forall c :: WithCount(t, c) == WithCount(u, c)
    ensures t == u
    decreases |t|
  {
    if t == [] || u == [] {
      GroupOfFirst(t);
      GroupOfFirst(u);
    } else {
      var m, n := t[0].matchCount, u[0].matchCount;
      InWithCount(t, t[0]);
      WithCountIn(u, m, t[0]);
      InWithCount(u, u[0]);
      WithCountIn(t, n, u[0]);
      FirstIsMax(u, t[0]);
      FirstIsMax(t, u[0]);
      NonIncreasingTail(t);
      NonIncreasingTail(u);
      assert m == n;
      assert WithCount(t, m)[0] == t[0] && WithCount(u, m)[0] == u[0];
      forall c
        ensures WithCount(t[1..], c) == WithCount(u[1..], c)
      {
        var a, b := WithCount(t[1..], c), WithCount(u[1..], c);
        if c == m {
          assert WithCount(t, c) == [t[0]] + a && WithCount(u, c) == [u[0]] + b;
          assert a == ([t[0]] + a)[1..] && b == ([u[0]] + b)[1..];
        } else {
          assert WithCount(t, c) == a && WithCount(u, c) == b;
        }
      }
      StableOrderUnique(t[1..], u[1..]);
    }
  }

  /** Any stable arrangement by non-increasing count is the one `sorted` returns. */
  lemma SortByCountUnique(s: seq<Found>, t: seq<Found>)
    requires NonIncreasing(t) && forall c :: WithCount(t, c) == WithCount(s, c)
    ensures t == SortByCount(s)
  {
    SortByCountSpec(s);
    StableOrderUnique(t, SortByCount(s));
  }

  /** `s[:n]`, with Python's meaning for a negative `n`. */
  function Top<T>(s: seq<T>, n: int): seq<T> {
    var k := if n >= 0 then (if n < |s| then n else |s|) else (if |s| + n > 0 then |s| + n else 0);
    s[..k]
  }

  /**
   * `s[:n]` keeps the first `min(n, len(s))` items for `n >= 0`, and drops
   * the last `-n` items (all of them when there are fewer) for `n < 0`.
   */
  lemma TopLength<T>(s: seq<T>, n: int)
    ensures Top(s, n) == s[..|Top(s, n)|]
    ensures n >= 0 ==> |Top(s, n)| == if n < |s| then n else |s|
    ensures n < 0 && -n <= |s| ==> Top(s, n) + s[|s| + n..] == s
    ensures n < 0 && -n > |s| ==> Top(s, n) == []
  {
  }

  /** The shown results are ranked, and none ranks below one that is left out. */
  lemma TopIsBest(s: seq<Found>, n: int)
    requires NonIncreasing(s)
    ensures NonIncreasing(Top(s, n))
    ensures forall i, j :: 0 <= i < |Top(s, n)| <= j < |s| ==> Top(s, n)[i].matchCount >= s[j].matchCount
  {
  }

  /** The ranked list of a search: collected, sorted, cut to `top_n`. */
  function Ranked(cvs: seq<Cv>, count: Cv -> nat, topN: int): seq<Found> {
    Top(SortByCount(Collected(cvs, count)), topN)
  }

  /** The first items of a ranked arrangement of `all`: drawn from `all`, and none ranks below one left out. */
  lemma TopSound(sorted: seq<Found>, all: seq<Found>, n: int)
    requires NonIncreasing(sorted) && multiset(sorted) == multiset(all)
    ensures NonIncreasing(Top(sorted, n)) && |Top(sorted, n)| <= |all|
    ensures forall f :: f in Top(sorted, n) ==> f in all
    ensures forall f :: f in all && f !in Top(sorted, n) ==> forall g :: g in Top(sorted, n) ==> g.matchCount >= f.matchCount
  {
    TopIsBest(sorted, n);
    var r := Top(sorted, n);
    assert |sorted| == |all| by {
      assert |multiset(sorted)| == |multiset(all)|;
    }
    forall f | f in r
      ensures f in all
    {
      assert f in sorted;
      assert f in multiset(sorted);
    }
    forall f | f in all && f !in r
      ensures forall g :: g in r ==> g.matchCount >= f.matchCount
    {
      assert f in multiset(sorted);
      var j :| 0 <= j < |sorted| && sorted[j] == f;
      assert j >= |r|;
    }
  }

  /** What `search_clicked` shows: ranked, positive, best first, one result per CV at most. */
  lemma RankedSound(cvs: seq<Cv>, count: Cv -> nat, topN: int)
    ensures var all := Collected(cvs, count);
            var r := Ranked(cvs, count, topN);
            && NonIncreasing(r)
            && |r| <= |cvs|
            && (forall f :: f in r ==> f.matchCount > 0 && f in all)
            && (forall f :: f in all && f !in r ==> forall g :: g in r ==> g.matchCount >= f.matchCount)
  {
    var all := Collected(cvs, count);
    CollectedPositive(cvs, count);
    SortByCountSpec(all);
    TopSound(SortByCount(all), all, topN);
  }

  // ----------------------------------------------------------------------
  // The grid.

  /** `(controls + runs - 1) // runs`: the rows a grid of `runs` columns needs. */
  function RowsNeeded(controls: nat, runs: nat): (rows: nat)
    requires runs > 0
    ensures controls <= rows * runs
    ensures controls > 0 ==> (rows - 1) * runs < controls
    ensures controls == 0 ==> rows == 0
  {
    var q := (controls + runs - 1) / runs;
    assert q * runs <= controls + runs - 1 < q * runs + runs;
    q
  }

  /** The columns of the result grid. */
  const RunsCount: nat := 3
  /** The height of one grid row, in pixels. */
  const RowHeight: nat := 380

  /** What the result grid holds: a card per shown CV, or the "No matching CVs found." text. */
  datatype Control = Card(name: string, matchCount: nat) | NoMatches

  /** The page state `search_clicked` reads and writes. */
  class SearchPage {
    const processor: Processor
    const cvDataset: seq<Cv>
    var status: string
    var controls: seq<Control>
    var height: int
    var selectedAlgorithm: string

    /** The processor is built with threshold 0.65 and the default "KMP" algorithm. */
    constructor (cvDataset: seq<Cv>, bm: BmSearch, aho: AhoSearch)
      ensures this.cvDataset == cvDataset && fresh(processor)
      ensures processor.fuzzyThreshold == 0.65 && processor.algorithm == "KMP"
      ensures processor.bm == bm && processor.aho == aho
      ensures status == "Enter keywords to begin your search." && controls == []
      ensures selectedAlgorithm == "KMP"
    {
      this.cvDataset := cvDataset;
      processor := new Processor(0.65, "KMP", bm, aho);
      status := "Enter keywords to begin your search.";
      controls := [];
      height := 0;
      selectedAlgorithm := "KMP";
    }

    /**
     * `on_algo_change`: remembers the pressed button's label and hands it to
     * the processor's `set_algorithm`. The "Aho-Corasick" button leaves the
     * processor with "AHO-CORASICK", which the search treats as KMP.
     */
    method OnAlgoChange(selected: string)
      modifies this, processor
      ensures selectedAlgorithm == selected
      ensures processor.algorithm == (if selected in ["KMP", "BM", "Aho-Corasick"] then Upper(selected) else "KMP")
      ensures processor.algorithm != "Aho-Corasick"
      ensures processor.fuzzyThreshold == old(processor.fuzzyThreshold) && processor.cvText == old(processor.cvText)
      ensures processor.keywords == old(processor.keywords)
      ensures processor.exactResults == old(processor.exactResults) && processor.fuzzyResults == old(processor.fuzzyResults)
      ensures status == old(status) && controls == old(controls) && height == old(height)
    {
      selectedAlgorithm := selected;
      processor.SetAlgorithm(selected);
    }

    /** One round of the loop: `load_cv`, `search_keywords` and the sum of the totals. */
    method SearchCv(cv: Cv, raw: PyValue) returns (totalMatches: nat)
      modifies processor
      ensures processor.algorithm == old(processor.algorithm) && processor.fuzzyThreshold == old(processor.fuzzyThreshold)
      ensures Searched(processor, cv, raw)
      ensures totalMatches == MatchCount(raw, processor.algorithm, processor.fuzzyThreshold, processor.bm, processor.aho)(cv)
    {
      processor.LoadCv(cv.cvText);
      var totalExact, totalFuzzy := processor.SearchKeywords(raw);
      totalMatches := totalExact + totalFuzzy;
    }

    /**
     * The loop of `search_clicked` over the dataset: loads each CV into the
     * processor, searches it and keeps the CVs with a positive total.
     */
    method CollectResults(raw: PyValue) returns (all: seq<Found>)
      modifies processor
      ensures processor.algorithm == old(processor.algorithm) && processor.fuzzyThreshold == old(processor.fuzzyThreshold)
      ensures all == Collected(cvDataset, MatchCount(raw, old(processor.algorithm), old(processor.fuzzyThreshold), processor.bm, processor.aho))
      ensures if cvDataset == [] then unchanged(processor) else Searched(processor, cvDataset[|cvDataset| - 1], raw)
    {
      var cvs, algorithm, threshold := cvDataset, processor.algorithm, processor.fuzzyThreshold;
      var count := MatchCount(raw, algorithm, threshold, processor.bm, processor.aho);
      all := [];
      for i := 0 to |cvs|
        invariant processor.algorithm == algorithm && processor.fuzzyThreshold == threshold
        invariant all == Collected(cvs[..i], count)
        invariant if i == 0 then unchanged(processor) else Searched(processor, cvs[i - 1], raw)
      {
        var totalMatches := SearchCv(cvs[i], raw);
        CollectedStep(cvs, i, count);
        if totalMatches > 0 {
          all := all + [Found(cvs[i].name, totalMatches)];
        }
      }
      assert cvs[..|cvs|] == cvs;
    }

    /**
     * `search_clicked`, given the two text fields' values. A top-matches
     * value that `int()` rejects, or an empty keyword field, ends the
     * callback with a status message and an empty grid before any CV is
     * read. A search leaves the processor holding the last CV of the
     * dataset and its results.
     */
    method SearchClicked(keywordsValue: Option<string>, topValue: Option<string>)
      modifies this, processor
      ensures selectedAlgorithm == old(selectedAlgorithm)
      ensures processor.algorithm == old(processor.algorithm) && processor.fuzzyThreshold == old(processor.fuzzyThreshold)
      ensures ParseInt(topValue).None? ==>
                status == "Top Matches must be a number." && controls == [] && height == old(height)
                && unchanged(processor)
      ensures ParseInt(topValue).Some? && (keywordsValue.None? || keywordsValue.value == []) ==>
                status == "Please enter keywords to search." && controls == [] && height == old(height)
                && unchanged(processor)
      ensures ParseInt(topValue).Some? && keywordsValue.Some? && keywordsValue.value != [] ==>
                var count := MatchCount(PyStr(keywordsValue.value), old(processor.algorithm),
                                        old(processor.fuzzyThreshold), processor.bm, processor.aho);
                var top := Ranked(cvDataset, count, ParseInt(topValue).value);
                && status == "Found " + ShowInt(|top|) + " relevant CVs."
                && controls == (if top == [] then [NoMatches] else Cards(top))
                && height == RowsNeeded(|controls|, RunsCount) * RowHeight
                && if cvDataset == [] then unchanged(processor)
                   else Searched(processor, cvDataset[|cvDataset| - 1], PyStr(keywordsValue.value))
    {
      controls := [];
      status := "Scanning CVs...";
      var topN := ParseInt(topValue);
      if topN.None? {
        status := "Top Matches must be a number.";
        return;
      }
      if keywordsValue.None? || keywordsValue.value == [] {
        status := "Please enter keywords to search.";
        return;
      }
      var raw := PyStr(keywordsValue.value);
      var all := CollectResults(raw);
      var top := Top(SortByCount(all), topN.value);
      status := "Found " + ShowInt(|top|) + " relevant CVs.";
      if top == [] {
        controls := controls + [NoMatches];
      } else {
        var cards := CardsOf(top);
        controls := controls + cards;
      }
      height := RowsNeeded(|controls|, RunsCount) * RowHeight;
    }
  }

  /** The loop placing one card per shown result. */
  method CardsOf(top: seq<Found>) returns (cards: seq<Control>)
    ensures cards == Cards(top)
  {
    cards := [];
    for i := 0 to |top|
      invariant cards == Cards(top[..i])
    {
      assert top[..i + 1][..i] == top[..i];
      cards := cards + [Card(top[i].name, top[i].matchCount)];
    }
    assert top[..|top|] == top;
  }

  /** The cards of the shown results, in ranked order. */
  function Cards(r: seq<Found>): (cs: seq<Control>)
    ensures |cs| == |r|
    ensures forall i :: 0 <= i < |r| ==> cs[i] == Card(r[i].name, r[i].matchCount)
  {
    if r == [] then [] else Cards(r[..|r| - 1]) + [Card(r[|r| - 1].name, r[|r| - 1].matchCount)]
  }

  /** The grid always has a row: an empty ranking still places the placeholder. */
  lemma GridNeverEmpty(top: seq<Found>)
    ensures var cs := if top == [] then [NoMatches] else Cards(top);
            |cs| >= 1 && RowsNeeded(|cs|, RunsCount) >= 1
            && RowsNeeded(|cs|, RunsCount) == (|top| + RunsCount - 1) / RunsCount + (if top == [] then 1 else 0)
  {
  }
}
