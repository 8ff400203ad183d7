/**
 * `ATSProcessor`: keyword parsing, CV normalisation, choice of the exact
 * matcher and the exact-then-fuzzy search whose results are two
 * insertion-ordered dictionaries keyed by keyword.
 *
 * The Boyer-Moore and Aho-Corasick matchers are not part of this model:
 * they are values supplied when a processor is built (`bm(text, keyword)`
 * gives the match indices, `aho(keywords, text)` the indices per keyword).
 * `FuzzyMatcher` is taken to hold the threshold and to delegate to
 * `fuzzy_search`, modelled in module Fuzzy.
 */
module AtsProcessor {
  import opened Text
  import Fuzzy
  import Kmp

  /** The Python value handed to `parse_keywords`: a `str`, a `list`, or anything else. */
  datatype PyValue = PyStr(s: string) | PyList(items: seq<PyValue>) | PyOther

  /** `k.strip().lower()` */
  function Normalise(k: string): string {
    Lower(Strip(k))
  }

  /** One item of the comprehension: kept, normalised, when it is a non-blank string. */
  function ParseItem(v: PyValue): seq<string> {
    if v.PyStr? && Strip(v.s) != [] then [Normalise(v.s)] else []
  }

  /** `[k.strip().lower() for k in items if isinstance(k, str) and k.strip()]` */
  function ParseItems(items: seq<PyValue>): seq<string> {
    if items == [] then [] else ParseItem(items[0]) + ParseItems(items[1..])
  }

  /** The pieces of a split string, as Python strings. */
  function StrItems(pieces: seq<string>): (r: seq<PyValue>)
    ensures |r| == |pieces|
    ensures forall i :: 0 <= i < |r| ==> r[i] == PyStr(pieces[i])
  {
    if pieces == [] then [] else [PyStr(pieces[0])] + StrItems(pieces[1..])
  }

  /**
   * `parse_keywords`: a string is split on commas, a list keeps its string
   * items; either way each piece is stripped and lower-cased and blank
   * pieces are dropped. Any other value gives no keywords.
   */
  function ParseKeywords(raw: PyValue): seq<string> {
    match raw
    case PyStr(s) => ParseItems(StrItems(SplitOn(s, ',')))
    case PyList(items) => ParseItems(items)
    case PyOther => []
  }

  /** Parsing keeps the order of the items: it distributes over concatenation. */
  lemma {:induction false} ParseItemsAppend(a: seq<PyValue>, b: seq<PyValue>)
    ensures ParseItems(a + b) == ParseItems(a) + ParseItems(b)
  {
    if a != [] {
      assert (a + b)[0] == a[0] && (a + b)[1..] == a[1..] + b;
      ParseItemsAppend(a[1..], b);
    } else {
      assert a + b == b;
    }
  }

  lemma StrItemsAppend(a: seq<string>, b: seq<string>)
    ensures StrItems(a + b) == StrItems(a) + StrItems(b)
  {
  }

  /** Every character of `Strip(s)` is a character of `s`. */
  lemma StripChars(s: string)
    ensures forall i :: 0 <= i < |Strip(s)| ==> Strip(s)[i] in s
  {
    var t := TrimStart(s);
    var r := TrimEnd(t);
    assert Strip(s) == r;
    TrimStartIsSuffix(s);
    var off := |s| - |t|;
    forall i | 0 <= i < |r|
      ensures r[i] in s
    {
      assert r[i] == t[i];
      assert t[i] == s[off + i];
    }
  }

  /** Normalising never introduces a character that is not an upper-case letter's image. */
  lemma NormaliseKeepsOut(k: string, c: char)
    requires c !in k && !IsLowerLetter(c)
    ensures c !in Normalise(k)
  {
    StripChars(k);
    var t := Strip(k);
    forall i | 0 <= i < |t|
      ensures Normalise(k)[i] != c
    {
      assert t[i] in k;
    }
  }

  /** A keyword is non-empty, has no surrounding whitespace and no upper-case letter. */
  predicate CleanKeyword(k: string) {
    k != [] && Stripped(k) && IsLowerCase(k)
  }

  lemma {:induction false} ParseItemsClean(items: seq<PyValue>, c: char)
    requires !IsLowerLetter(c)
    ensures forall k :: k in ParseItems(items) ==> CleanKeyword(k)
    ensures (forall i :: 0 <= i < |items| ==> items[i].PyStr? && c !in items[i].s) ==>
              forall k :: k in ParseItems(items) ==> c !in k
  {
    if items != [] {
      ParseItemsClean(items[1..], c);
      var v := items[0];
      if v.PyStr? && Strip(v.s) != [] {
        LowerKeepsStripped(Strip(v.s));
        LowerIsLowerCase(Strip(v.s));
        if c !in v.s {
          NormaliseKeepsOut(v.s, c);
        }
      }
    }
  }

  /**
   * Every parsed keyword is non-empty, stripped and lower-case; keywords
   * parsed from a string contain no comma.
   */
  lemma ParsedKeywordsClean(raw: PyValue)
    ensures forall k :: k in ParseKeywords(raw) ==> CleanKeyword(k)
    ensures raw.PyStr? ==> forall k :: k in ParseKeywords(raw) ==> ',' !in k
  {
    match raw
    case PyStr(s) =>
      ParseItemsClean(StrItems(SplitOn(s, ',')), ',');
    case PyList(items) =>
      ParseItemsClean(items, ',');
    case PyOther =>
  }

  /** A comma in a keyword string separates the keywords of either side. */
  lemma ParseAroundComma(a: string, b: string)
    ensures ParseKeywords(PyStr(a + [','] + b)) == ParseKeywords(PyStr(a)) + ParseKeywords(PyStr(b))
  {
    SplitOnAround(a, b, ',');
    StrItemsAppend(SplitOn(a, ','), SplitOn(b, ','));
    ParseItemsAppend(StrItems(SplitOn(a, ',')), StrItems(SplitOn(b, ',')));
  }

  /** `cv_text.strip().lower() if cv_text else ""` */
  function NormaliseCv(cv: Option<string>): (r: string)
    ensures Stripped(r) && IsLowerCase(r)
  {
    match cv
    case None => []
    case Some(s) =>
      LowerKeepsStripped(Strip(s));
      LowerIsLowerCase(Strip(s));
      if s == [] then [] else Normalise(s)
  }

  /** Loading an already loaded CV text changes nothing. */
  lemma NormaliseCvIdempotent(cv: Option<string>)
    ensures NormaliseCv(Some(NormaliseCv(cv))) == NormaliseCv(cv)
  {
    var r := NormaliseCv(cv);
    StripOfStripped(r);
    LowerIsLowerCase(r);
  }

  // ----------------------------------------------------------------------
  // Python dictionaries keyed by keyword, in insertion order.

  /** A Python `dict` with string keys: its items in insertion order. */
  type Dict<V> = seq<(string, V)>

  function Keys<V>(d: Dict<V>): seq<string> {
    if d == [] then [] else [d[0].0] + Keys(d[1..])
  }

  predicate DistinctKeys<V>(d: Dict<V>) {
    d == [] || (d[0].0 !in Keys(d[1..]) && DistinctKeys(d[1..]))
  }

  /** `d.get(k)` */
  function Get<V>(d: Dict<V>, k: string): Option<V> {
    if d == [] then None
    else if d[0].0 == k then Some(d[0].1)
    else Get(d[1..], k)
  }

  /** `d[k] = v`: an existing key keeps its place, a new key goes last. */
  function Put<V>(d: Dict<V>, k: string, v: V): Dict<V> {
    if d == [] then [(k, v)]
    else if d[0].0 == k then [(k, v)] + d[1..]
    else [d[0]] + Put(d[1..], k, v)
  }

  lemma {:induction false} GetInKeys<V>(d: Dict<V>, k: string)
    ensures Get(d, k).Some? <==> k in Keys(d)
  {
    if d != [] {
      GetInKeys(d[1..], k);
    }
  }

  /** What `d[k] = v` does to the keys, the lookups and the items of a dictionary. */
  lemma {:induction false} PutSpec<V>(d: Dict<V>, k: string, v: V)
    ensures Get(Put(d, k, v), k) == Some(v)
    ensures forall k' :: k' != k ==> Get(Put(d, k, v), k') == Get(d, k')
    ensures forall k' :: k' in Keys(Put(d, k, v)) <==> k' in Keys(d) || k' == k
    ensures DistinctKeys(d) ==> DistinctKeys(Put(d, k, v))
    ensures k !in Keys(d) ==> Put(d, k, v) == d + [(k, v)]
  {
    if d != [] {
      PutSpec(d[1..], k, v);
      if d[0].0 == k {
        assert Keys(Put(d, k, v)) == [k] + Keys(d[1..]);
      } else {
        assert Put(d, k, v) == [d[0]] + Put(d[1..], k, v);
        assert Keys(Put(d, k, v)) == [d[0].0] + Keys(Put(d[1..], k, v));
      }
    }
  }

  /** Storing the value a key already has changes nothing. */
  lemma {:induction false} PutSame<V>(d: Dict<V>, k: string, v: V)
    requires Get(d, k) == Some(v)
    ensures Put(d, k, v) == d
  {
    if d[0].0 != k {
      PutSame(d[1..], k, v);
    }
  }

  /** A `{'count', 'matches'}` result. */
  datatype Entry<M> = Entry(count: nat, matches: seq<M>)

  /** `sum(res.get('count', 0) for res in d.values())` */
  function Total<M>(d: Dict<Entry<M>>): nat {
    if d == [] then 0 else d[0].1.count + Total(d[1..])
  }

  predicate Positive<M>(d: Dict<Entry<M>>) {
    forall j :: 0 <= j < |d| ==> d[j].1.count > 0
  }

  lemma {:induction false} PutPositive<M>(d: Dict<Entry<M>>, k: string, e: Entry<M>)
    requires Positive(d) && e.count > 0
    ensures Positive(Put(d, k, e))
  {
    if d != [] && d[0].0 != k {
      PutPositive(d[1..], k, e);
    }
  }

  // ----------------------------------------------------------------------
  // The two passes of `search_keywords`, keyword by keyword.

  /** The exact pass stores a keyword with its count when the count is positive. */
  function Record(d: Dict<Entry<string>>, k: string, c: nat): Dict<Entry<string>> {
    if c > 0 then Put(d, k, Entry(c, Repeat(k, c))) else d
  }

  /** The dictionary of exact results after the first `i` keywords. */
  function ExactPhase(ks: seq<string>, i: nat, count: string -> nat): Dict<Entry<string>>
    requires i <= |ks|
  {
    if i == 0 then [] else Record(ExactPhase(ks, i - 1, count), ks[i - 1], count(ks[i - 1]))
  }

  /** The fuzzy pass stores a keyword without an exact hit when its fuzzy count is positive. */
  function FuzzyRecord(d: Dict<Entry<Fuzzy.Match>>, k: string, found: seq<string>, e: Entry<Fuzzy.Match>): Dict<Entry<Fuzzy.Match>> {
    if k !in found && e.count > 0 then Put(d, k, e) else d
  }

  /** The dictionary of fuzzy results after the first `i` keywords. */
  function FuzzyPhase(ks: seq<string>, i: nat, found: seq<string>, search: string -> Entry<Fuzzy.Match>): Dict<Entry<Fuzzy.Match>>
    requires i <= |ks|
  {
    if i == 0 then [] else FuzzyRecord(FuzzyPhase(ks, i - 1, found, search), ks[i - 1], found, search(ks[i - 1]))
  }

  /**
   * `d` holds exactly the keywords of `ks` that `keep` selects, once each,
   * with the value `val` gives them.
   */
  ghost predicate Holds<V>(d: Dict<V>, ks: seq<string>, keep: string -> bool, val: string -> V) {
    && DistinctKeys(d)
    && (forall k :: k in Keys(d) <==> k in ks && keep(k))
    && (forall k :: k in Keys(d) ==> Get(d, k) == Some(val(k)))
  }

  /** Storing the next keyword when it is selected keeps `Holds`. */
  lemma HoldsStep<V>(d: Dict<V>, ks: seq<string>, k: string, keep: string -> bool, val: string -> V)
    requires Holds(d, ks, keep, val)
    ensures Holds(if keep(k) then Put(d, k, val(k)) else d, ks + [k], keep, val)
  {
    if keep(k) {
      PutSpec(d, k, val(k));
    }
  }

  /** Exactly the keywords with a positive count are stored, once each, with their count. */
  lemma {:induction false} ExactPhaseContents(ks: seq<string>, i: nat, count: string -> nat)
    requires i <= |ks|
    ensures DistinctKeys(ExactPhase(ks, i, count)) && Positive(ExactPhase(ks, i, count))
    ensures forall k :: k in Keys(ExactPhase(ks, i, count)) <==> k in ks[..i] && count(k) > 0
    ensures forall k :: k in Keys(ExactPhase(ks, i, count)) ==>
              Get(ExactPhase(ks, i, count), k) == Some(Entry(count(k), Repeat(k, count(k))))
  {
    ExactPhaseHolds(ks, i, count);
  }

  lemma {:induction false} ExactPhaseHolds(ks: seq<string>, i: nat, count: string -> nat)
    requires i <= |ks|
    ensures Holds(ExactPhase(ks, i, count), ks[..i], k => count(k) > 0, k => Entry(count(k), Repeat(k, count(k))))
    ensures Positive(ExactPhase(ks, i, count))
  {
    if i > 0 {
      ExactPhaseHolds(ks, i - 1, count);
      var d, k := ExactPhase(ks, i - 1, count), ks[i - 1];
      assert ks[..i] == ks[..i - 1] + [k];
      HoldsStep(d, ks[..i - 1], k, k => count(k) > 0, k => Entry(count(k), Repeat(k, count(k))));
      if count(k) > 0 {
        PutPositive(d, k, Entry(count(k), Repeat(k, count(k))));
      }
    }
  }

  /**
   * Exactly the keywords outside `found` with a positive fuzzy count are
   * stored, once each, with the fuzzy result.
   */
  lemma {:induction false} FuzzyPhaseContents(ks: seq<string>, i: nat, found: seq<string>, search: string -> Entry<Fuzzy.Match>)
    requires i <= |ks|
    ensures DistinctKeys(FuzzyPhase(ks, i, found, search)) && Positive(FuzzyPhase(ks, i, found, search))
    ensures forall k :: k in Keys(FuzzyPhase(ks, i, found, search)) <==>
              k in ks[..i] && k !in found && search(k).count > 0
    ensures forall k :: k in Keys(FuzzyPhase(ks, i, found, search)) ==>
              Get(FuzzyPhase(ks, i, found, search), k) == Some(search(k))
  {
    FuzzyPhaseHolds(ks, i, found, search);
  }

  lemma {:induction false} FuzzyPhaseHolds(ks: seq<string>, i: nat, found: seq<string>, search: string -> Entry<Fuzzy.Match>)
    requires i <= |ks|
    ensures Holds(FuzzyPhase(ks, i, found, search), ks[..i], k => k !in found && search(k).count > 0, search)
    ensures Positive(FuzzyPhase(ks, i, found, search))
  {
    if i > 0 {
      FuzzyPhaseHolds(ks, i - 1, found, search);
      var d, k := FuzzyPhase(ks, i - 1, found, search), ks[i - 1];
      assert ks[..i] == ks[..i - 1] + [k];
      HoldsStep(d, ks[..i - 1], k, k => k !in found && search(k).count > 0, search);
      if k !in found && search(k).count > 0 {
        PutPositive(d, k, search(k));
      }
    }
  }

  /**
   * The results of one search: the exact and the fuzzy dictionary have
   * disjoint keys, every stored count is positive, a keyword is an exact
   * result iff it occurs, and a fuzzy result iff it does not occur but the
   * fuzzy search finds it.
   */
  lemma SearchResultsSound(ks: seq<string>, count: string -> nat, search: string -> Entry<Fuzzy.Match>)
    ensures var exact := ExactPhase(ks, |ks|, count);
            var fuzzy := FuzzyPhase(ks, |ks|, Keys(exact), search);
            && Positive(exact) && Positive(fuzzy)
            && DistinctKeys(exact) && DistinctKeys(fuzzy)
            && (forall k :: !(k in Keys(exact) && k in Keys(fuzzy)))
            && (forall k :: k in Keys(exact) <==> k in ks && count(k) > 0)
            && (forall k :: k in Keys(fuzzy) <==> k in ks && count(k) == 0 && search(k).count > 0)
  {
    var exact := ExactPhase(ks, |ks|, count);
    assert ks[..|ks|] == ks;
    ExactPhaseContents(ks, |ks|, count);
    FuzzyPhaseContents(ks, |ks|, Keys(exact), search);
  }

  /** A keyword that comes again changes neither dictionary, so it is counted once. */
  lemma DuplicateCountedOnce(ks: seq<string>, i: nat, count: string -> nat, found: seq<string>, search: string -> Entry<Fuzzy.Match>)
    requires i < |ks| && ks[i] in ks[..i]
    requires forall k :: k in found <==> k in ks && count(k) > 0
    ensures ExactPhase(ks, i + 1, count) == ExactPhase(ks, i, count)
    ensures FuzzyPhase(ks, i + 1, found, search) == FuzzyPhase(ks, i, found, search)
  {
    var k := ks[i];
    ExactPhaseContents(ks, i, count);
    if count(k) > 0 {
      PutSame(ExactPhase(ks, i, count), k, Entry(count(k), Repeat(k, count(k))));
    }
    FuzzyPhaseContents(ks, i, found, search);
    if k !in found && search(k).count > 0 {
      PutSame(FuzzyPhase(ks, i, found, search), k, search(k));
    }
  }

  // ----------------------------------------------------------------------
  // The exact matcher per algorithm, and the search itself.

  /** Match indices of `keyword` in `text`, as the Boyer-Moore matcher returns them. */
  type BmSearch = (string, string) -> seq<nat>
  /** Match indices per keyword, as the Aho-Corasick automaton over `keywords` returns them. */
  type AhoSearch = (seq<string>, string) -> map<string, seq<nat>>

  /**
   * The exact count of a keyword for the selected algorithm:
   * `len(found_matches.get(keyword, []))` for Aho-Corasick, the number of
   * Boyer-Moore indices for "BM", and the KMP occurrence count otherwise.
   */
  function ExactCounter(algorithm: string, ks: seq<string>, cvText: string, bm: BmSearch, aho: AhoSearch): string -> nat {
    if algorithm == "Aho-Corasick" then
      var found := aho(ks, cvText);
      k => if k in found then |found[k]| else 0
    else if algorithm == "BM" then
      k => |bm(cvText, k)|
    else
      k => Kmp.CountOccurrences(cvText, k)
  }

  /** The fuzzy result `{'count', 'matches'}` of a keyword. */
  function FuzzyEntryOf(cvText: string, threshold: real): string -> Entry<Fuzzy.Match> {
    k => Entry(|Fuzzy.FuzzyMatches(k, cvText, threshold)|, Fuzzy.FuzzyMatches(k, cvText, threshold))
  }

  /** What a call of `search_keywords` returns, or that it raises. */
  datatype Outcome = Totals(exact: nat, fuzzy: nat) | RaisesTypeError

  /** The two result dictionaries of a search over the parsed keywords `ks`. */
  function ExactResults(ks: seq<string>, cvText: string, algorithm: string, bm: BmSearch, aho: AhoSearch): Dict<Entry<string>> {
    ExactPhase(ks, |ks|, ExactCounter(algorithm, ks, cvText, bm, aho))
  }

  function FuzzyResults(ks: seq<string>, cvText: string, algorithm: string, threshold: real, bm: BmSearch, aho: AhoSearch): Dict<Entry<Fuzzy.Match>> {
    FuzzyPhase(ks, |ks|, Keys(ExactResults(ks, cvText, algorithm, bm, aho)), FuzzyEntryOf(cvText, threshold))
  }

  /** The totals `search_keywords` returns, with every exact pass counting occurrences. */
  function SearchOutcome(raw: PyValue, cvText: string, algorithm: string, threshold: real, bm: BmSearch, aho: AhoSearch): Outcome {
    var ks := ParseKeywords(raw);
    Totals(Total(ExactResults(ks, cvText, algorithm, bm, aho)), Total(FuzzyResults(ks, cvText, algorithm, threshold, bm, aho)))
  }

  /**
   * The name `set_algorithm` stores for "Aho-Corasick" is neither
   * "Aho-Corasick" nor "BM", so the exact pass counts with KMP.
   */
  lemma UpperAhoCountsWithKmp(ks: seq<string>, cvText: string, bm: BmSearch, aho: AhoSearch, k: string)
    ensures ExactCounter(Upper("Aho-Corasick"), ks, cvText, bm, aho)(k) == Kmp.CountOccurrences(cvText, k)
  {
    var name := Upper("Aho-Corasick");
    assert name[1] == UpperChar('h') != 'h';
    assert name != "Aho-Corasick" && |name| != |"BM"|;
  }

  /** Without keywords the totals are `(0, 0)`, whatever the algorithm. */
  lemma NoKeywordsNoTotals(raw: PyValue, cvText: string, algorithm: string, threshold: real, bm: BmSearch, aho: AhoSearch)
    requires ParseKeywords(raw) == []
    ensures SearchOutcome(raw, cvText, algorithm, threshold, bm, aho) == Totals(0, 0)
  {
  }

  /**
   * `search_keywords` as written: on the KMP path `len()` is applied to the
   * integer `kmp_search` returns, which raises `TypeError` at the first keyword.
   */
  function SearchAsWritten(raw: PyValue, cvText: string, algorithm: string, threshold: real, bm: BmSearch, aho: AhoSearch): (o: Outcome)
    ensures o.Totals? ==> o == SearchOutcome(raw, cvText, algorithm, threshold, bm, aho)
  {
    if algorithm != "Aho-Corasick" && algorithm != "BM" && ParseKeywords(raw) != [] then RaisesTypeError
    else SearchOutcome(raw, cvText, algorithm, threshold, bm, aho)
  }

  /**
   * With the default algorithm, the keyword "a" and the CV text "a", the
   * code as written raises, where one exact match and no fuzzy match is meant.
   */
  lemma KmpPathRaises(bm: BmSearch, aho: AhoSearch)
    ensures SearchAsWritten(PyStr("a"), "a", "KMP", 0.65, bm, aho) == RaisesTypeError
    ensures SearchOutcome(PyStr("a"), "a", "KMP", 0.65, bm, aho) == Totals(1, 0)
  {
    var rest := SplitOn("a"[1..], ',');
    assert "a"[1..] == [] && rest == [[]];
    assert rest[0] == [] && rest[1..] == [];
    assert ['a'] + rest[0] == "a";
    assert SplitOn("a", ',') == ["a"];
    assert Strip("a") == "a";
    assert Normalise("a") == "a";
    assert ParseItems(StrItems(["a"])) == ["a"];
    var ks := ["a"];
    var count := ExactCounter("KMP", ks, "a", bm, aho);
    assert Kmp.OccursAt("a", "a", 0);
    Kmp.CountIsNumberOfPositions("a", "a");
    assert Kmp.MatchPositions("a", "a") == {0};
    assert ParseKeywords(PyStr("a")) == ks;
    assert count("a") == 1;
    var exact := ExactPhase(ks, 1, count);
    assert exact == [("a", Entry(1, Repeat("a", 1)))];
    assert exact == ExactResults(ks, "a", "KMP", bm, aho);
    assert Keys(exact) == ["a"];
    assert FuzzyResults(ks, "a", "KMP", 0.65, bm, aho) == [];
    assert exact[1..] == [];
    assert Total(exact) == 1;
    assert SearchOutcome(PyStr("a"), "a", "KMP", 0.65, bm, aho) == Totals(Total(exact), Total(FuzzyResults(ks, "a", "KMP", 0.65, bm, aho)));
  }

  /** One keyword of the exact pass on the KMP or BM path. */
  method ExactRound(exact: Dict<Entry<string>>, keyword: string, algorithm: string, cvText: string, bm: BmSearch)
    returns (exact': Dict<Entry<string>>)
    ensures exact' == Record(exact, keyword, if algorithm == "BM" then |bm(cvText, keyword)| else Kmp.CountOccurrences(cvText, keyword))
  {
    var count: nat;
    if algorithm == "BM" {
      count := |bm(cvText, keyword)|;
    } else {
      count := Kmp.KmpSearch(cvText, keyword);
    }
    exact' := exact;
    if count > 0 {
      exact' := Put(exact, keyword, Entry(count, Repeat(keyword, count)));
    }
  }

  /** One keyword of the fuzzy pass. */
  method FuzzyRound(fuzzy: Dict<Entry<Fuzzy.Match>>, keyword: string, found: seq<string>, cvText: string, threshold: real)
    returns (fuzzy': Dict<Entry<Fuzzy.Match>>)
    ensures fuzzy' == FuzzyRecord(fuzzy, keyword, found, FuzzyEntryOf(cvText, threshold)(keyword))
  {
    fuzzy' := fuzzy;
    if keyword !in found {
      var fuzzyCount, fuzzyMatches := Fuzzy.FuzzySearch(keyword, cvText, threshold);
      if fuzzyCount > 0 {
        fuzzy' := Put(fuzzy, keyword, Entry(fuzzyCount, fuzzyMatches));
      }
    }
  }

  /**
   * The two passes of `search_keywords` over the parsed keywords: exact
   * matching per keyword with the selected algorithm, then fuzzy matching
   * for each keyword without an exact result.
   */
  method RunSearch(ks: seq<string>, cvText: string, algorithm: string, threshold: real, bm: BmSearch, aho: AhoSearch)
    returns (exact: Dict<Entry<string>>, fuzzy: Dict<Entry<Fuzzy.Match>>)
    ensures exact == ExactResults(ks, cvText, algorithm, bm, aho)
    ensures fuzzy == FuzzyResults(ks, cvText, algorithm, threshold, bm, aho)
  {
    var count := ExactCounter(algorithm, ks, cvText, bm, aho);
    exact, fuzzy := [], [];
    if algorithm == "Aho-Corasick" {
      if ks == [] {
        return;
      }
      var found := aho(ks, cvText);
      for i := 0 to |ks|
        invariant exact == ExactPhase(ks, i, count)
      {
        var indices := if ks[i] in found then found[ks[i]] else [];
        if |indices| > 0 {
          exact := Put(exact, ks[i], Entry(|indices|, Repeat(ks[i], |indices|)));
        }
      }
    } else {
      for i := 0 to |ks|
        invariant exact == ExactPhase(ks, i, count)
      {
        exact := ExactRound(exact, ks[i], algorithm, cvText, bm);
      }
    }
    var found := Keys(exact);
    for i := 0 to |ks|
      invariant fuzzy == FuzzyPhase(ks, i, found, FuzzyEntryOf(cvText, threshold))
    {
      fuzzy := FuzzyRound(fuzzy, ks[i], found, cvText, threshold);
    }
  }

  /** The `ATSProcessor` object. */
  class Processor {
    const bm: BmSearch
    const aho: AhoSearch
    /** The threshold the `FuzzyMatcher` holds. */
    var fuzzyThreshold: real
    var cvText: string
    var algorithm: string
    var keywords: seq<string>
    var exactResults: Dict<Entry<string>>
    var fuzzyResults: Dict<Entry<Fuzzy.Match>>

    /** `ATSProcessor(fuzzy_threshold, algorithm)`; Python's defaults are 0.65 and "KMP". */
    constructor (fuzzyThreshold: real, algorithm: string, bm: BmSearch, aho: AhoSearch)
      ensures this.fuzzyThreshold == fuzzyThreshold && this.algorithm == algorithm
      ensures this.bm == bm && this.aho == aho
      ensures cvText == [] && keywords == [] && exactResults == [] && fuzzyResults == []
    {
      this.bm := bm;
      this.aho := aho;
      this.fuzzyThreshold := fuzzyThreshold;
      cvText := [];
      this.algorithm := algorithm;
      keywords := [];
      exactResults := [];
      fuzzyResults := [];
    }

    /**
     * `set_algorithm`: a recognised name is stored upper-cased, anything
     * else as "KMP". "Aho-Corasick" is stored as "AHO-CORASICK", so the
     * Aho-Corasick branch of the search is never taken afterwards.
     */
    method SetAlgorithm(name: string)
      modifies this
      ensures algorithm == (if name in ["KMP", "BM", "Aho-Corasick"] then Upper(name) else "KMP")
      ensures algorithm in {"KMP", "BM", "AHO-CORASICK"} && algorithm != "Aho-Corasick"
      ensures cvText == old(cvText) && keywords == old(keywords) && fuzzyThreshold == old(fuzzyThreshold)
      ensures exactResults == old(exactResults) && fuzzyResults == old(fuzzyResults)
    {
      if name in ["KMP", "BM", "Aho-Corasick"] {
        algorithm := Upper(name);
        assert Upper("KMP") == "KMP";
        assert Upper("BM") == "BM";
        assert Upper("Aho-Corasick") == "AHO-CORASICK";
      } else {
        algorithm := "KMP";
      }
    }

    /** `load_cv` */
    method LoadCv(cv: Option<string>)
      modifies this
      ensures cvText == NormaliseCv(cv)
      ensures algorithm == old(algorithm) && keywords == old(keywords) && fuzzyThreshold == old(fuzzyThreshold)
      ensures exactResults == old(exactResults) && fuzzyResults == old(fuzzyResults)
    {
      cvText := NormaliseCv(cv);
    }

    /**
     * `search_keywords`: parses the keywords, replaces both result
     * dictionaries and returns the sums of their counts. The exact pass
     * counts occurrences on every path (see `SearchAsWritten` for the KMP
     * path as written). The dictionaries are built locally and stored at
     * the end, which leaves the same state.
     */
    method SearchKeywords(raw: PyValue) returns (totalExact: nat, totalFuzzy: nat)
      modifies this
      ensures keywords == ParseKeywords(raw)
      ensures cvText == old(cvText) && algorithm == old(algorithm) && fuzzyThreshold == old(fuzzyThreshold)
      ensures exactResults == ExactResults(keywords, cvText, algorithm, bm, aho)
      ensures fuzzyResults == FuzzyResults(keywords, cvText, algorithm, fuzzyThreshold, bm, aho)
      ensures totalExact == Total(exactResults) && totalFuzzy == Total(fuzzyResults)
      ensures Totals(totalExact, totalFuzzy) == SearchOutcome(raw, cvText, algorithm, fuzzyThreshold, bm, aho)
    {
      var ks := ParseKeywords(raw);
      var exact, fuzzy := RunSearch(ks, cvText, algorithm, fuzzyThreshold, bm, aho);
      keywords, exactResults, fuzzyResults := ks, exact, fuzzy;
      totalExact, totalFuzzy := Total(exact), Total(fuzzy);
    }
  }
}
