/**
 * `_clean_text` of the string-matching extractor: every run of whitespace
 * becomes one space and the result is stripped, which is the same as
 * joining the whitespace-separated words with single spaces.
 */
module PdfMatch {
  import opened Text

  /** `re.sub(r'\s+', ' ', s)` */
  function CollapseSpaces(s: string): string
    decreases |s|
  {
    if s == [] then []
    else if IsSpace(s[0]) then
      var k := SpaceRunLength(s);
      assert k > 0;
      [' '] + CollapseSpaces(s[k..])
    else [s[0]] + CollapseSpaces(s[1..])
  }

  /** `_clean_text`: empty text or `None` gives "", otherwise the collapsed, stripped text. */
  function CleanText(text: Option<string>): string {
    match text
    case None => []
    case Some(t) => if t == [] then [] else Strip(CollapseSpaces(t))
  }

  /** Whitespace is only single spaces. */
  predicate Collapsed(s: string) {
    && (forall i :: 0 <= i < |s| ==> IsSpace(s[i]) ==> s[i] == ' ')
    && (forall i :: 0 <= i < |s| - 1 ==> !(IsSpace(s[i]) && IsSpace(s[i + 1])))
  }

  predicate AllSpace(s: string) {
    forall i :: 0 <= i < |s| ==> IsSpace(s[i])
  }

  /** One space when `b` holds, nothing otherwise. */
  function SpaceIf(b: bool): (r: string)
    ensures AllSpace(r) && |r| <= 1
  {
    if b then " " else []
  }

  // ----------------------------------------------------------------------
  // Whitespace runs at either end.

  /** Skipping the leading whitespace run is `TrimStart`. */
  lemma {:induction false} SkipSpaces(s: string)
    ensures s[SpaceRunLength(s)..] == TrimStart(s)
  {
    if s != [] && IsSpace(s[0]) {
      SkipSpaces(s[1..]);
      assert s[1..][SpaceRunLength(s[1..])..] == s[SpaceRunLength(s)..];
    }
  }

  lemma {:induction false} TrimStartAfterSpaces(x: string, z: string)
    requires AllSpace(x) && (z == [] || !IsSpace(z[0]))
    ensures TrimStart(x + z) == z
  {
    if x != [] {
      assert (x + z)[0] == x[0] && (x + z)[1..] == x[1..] + z;
      TrimStartAfterSpaces(x[1..], z);
    } else {
      assert x + z == z;
    }
  }

  lemma {:induction false} TrimEndBeforeSpaces(z: string, y: string)
    requires AllSpace(y) && (z == [] || !IsSpace(z[|z| - 1]))
    ensures TrimEnd(z + y) == z
  {
    if y != [] {
      var y' := y[..|y| - 1];
      assert (z + y)[..|z + y| - 1] == z + y';
      assert (z + y)[|z + y| - 1] == y[|y| - 1];
      TrimEndBeforeSpaces(z, y');
    } else {
      assert z + y == z;
    }
  }

  /** Stripping whitespace from around a stripped string gives that string. */
  lemma StripAround(x: string, j: string, y: string)
    requires AllSpace(x) && AllSpace(y) && Stripped(j)
    ensures Strip(x + (j + y)) == j
  {
    if j == [] {
      assert x + (j + y) == x + y;
      assert AllSpace(x + y);
      TrimStartAfterSpaces(x + y, []);
      assert x + y + [] == x + y;
    } else {
      TrimStartAfterSpaces(x, j + y);
      TrimEndBeforeSpaces(j, y);
    }
  }

  // ----------------------------------------------------------------------
  // Collapsing is joining the words.

  /** A run without whitespace is copied. */
  lemma {:induction false} CollapseAfterWord(w: string, x: string)
    requires forall i :: 0 <= i < |w| ==> !IsSpace(w[i])
    ensures CollapseSpaces(w + x) == w + CollapseSpaces(x)
  {
    if w != [] {
      assert (w + x)[0] == w[0] && (w + x)[1..] == w[1..] + x;
      CollapseAfterWord(w[1..], x);
    } else {
      assert w + x == x;
    }
  }

  /** A text that starts with no whitespace is its own `lstrip`. */
  lemma TrimStartOfTrimmed(s: string)
    requires s == [] || !IsSpace(s[0])
    ensures TrimStart(s) == s
  {
  }

  /** Regrouping a concatenation, kept apart so the proofs using it stay small. */
  lemma Regroup(a: string, b: string, c: string, d: string)
    ensures a + (b + (c + d)) == (a + b + c) + d
  {
  }

  /** A text that starts with a word: that word, then the rest. */
  lemma WordStart(s: string)
    requires s != [] && !IsSpace(s[0])
    ensures var k := WordLength(s);
      && Words(s) == [s[..k]] + Words(s[k..])
      && CollapseSpaces(s) == s[..k] + CollapseSpaces(s[k..])
      && (k < |s| ==> s[|s| - 1] == s[k..][|s| - k - 1])
  {
    var k := WordLength(s);
    TrimStartOfTrimmed(s);
    assert s == s[..k] + s[k..];
    CollapseAfterWord(s[..k], s[k..]);
  }

  /** After a word, a whitespace run becomes one space and holds no word. */
  lemma RunAfterWord(rest: string)
    requires rest != [] && IsSpace(rest[0])
    ensures var r := rest[SpaceRunLength(rest)..];
      && (r == [] || !IsSpace(r[0]))
      && Words(rest) == Words(r)
      && CollapseSpaces(rest) == " " + CollapseSpaces(r)
      && (r != [] ==> rest[|rest| - 1] == r[|r| - 1])
      && (r == [] ==> IsSpace(rest[|rest| - 1]))
  {
    SkipSpaces(rest);
    TrimStartOfTrimmed(rest[SpaceRunLength(rest)..]);
  }

  /** The case of a word followed by at least one more word. */
  lemma JoinNext(w: string, ws: seq<string>, tail: string, trail: string)
    requires ws != [] && tail == Join(ws, " ") + trail
    ensures w + (" " + tail) == Join([w] + ws, " ") + trail
  {
    assert ([w] + ws)[0] == w && ([w] + ws)[1..] == ws;
    Regroup(w, " ", Join(ws, " "), trail);
  }

  /**
   * From a non-whitespace start, collapsing gives the words joined by single
   * spaces, plus one space when the text ends in whitespace after a word.
   */
  lemma {:induction false} CollapseFromWord(s: string)
    requires s == [] || !IsSpace(s[0])
    ensures CollapseSpaces(s) == Join(Words(s), " ") + SpaceIf(Words(s) != [] && IsSpace(s[|s| - 1]))
    decreases |s|
  {
    if s != [] {
      var k := WordLength(s);
      var w, rest := s[..k], s[k..];
      WordStart(s);
      if rest == [] {
        assert Words(s) == [w];
        assert Join([w], " ") == w;
        assert s[|s| - 1] == w[k - 1];
      } else {
        var rest' := rest[SpaceRunLength(rest)..];
        RunAfterWord(rest);
        CollapseFromWord(rest');
        var ws := Words(rest');
        if rest' == [] {
          assert Words(s) == [w];
          assert Join([w], " ") == w;
        } else {
          JoinNext(w, ws, CollapseSpaces(rest'), SpaceIf(IsSpace(s[|s| - 1])));
        }
      }
    }
  }

  lemma {:induction false} JoinedWordsStripped(ws: seq<string>)
    requires forall i :: 0 <= i < |ws| ==> IsWord(ws[i])
    ensures Stripped(Join(ws, " ")) && Collapsed(Join(ws, " "))
    ensures ws != [] ==> Join(ws, " ") != []
  {
    if |ws| == 1 {
      assert Join(ws, " ") == ws[0];
    } else if |ws| > 1 {
      var w, j := ws[0], Join(ws[1..], " ");
      JoinedWordsStripped(ws[1..]);
      var s := w + " " + j;
      assert Join(ws, " ") == s;
      assert IsWord(w) && j != [];
      forall i | 0 <= i < |s|
        ensures IsSpace(s[i]) ==> s[i] == ' '
      {
        if i > |w| {
          assert s[i] == j[i - |w| - 1];
        }
      }
      forall i | 0 <= i < |s| - 1
        ensures !(IsSpace(s[i]) && IsSpace(s[i + 1]))
      {
        if i > |w| {
          assert s[i] == j[i - |w| - 1] && s[i + 1] == j[i - |w|];
        } else if i == |w| {
          assert s[i + 1] == j[0];
        } else if i + 1 < |w| {
          assert s[i] == w[i];
        }
      }
      assert s[|s| - 1] == j[|j| - 1];
    }
  }

  /** The leading whitespace run collapses to one space and holds no word. */
  lemma SkipLeadingRun(t: string)
    ensures var u := t[SpaceRunLength(t)..];
      && (u == [] || !IsSpace(u[0]))
      && Words(t) == Words(u)
      && CollapseSpaces(t) == SpaceIf(SpaceRunLength(t) > 0) + CollapseSpaces(u)
  {
    var k := SpaceRunLength(t);
    var u := t[k..];
    SkipSpaces(t);
    TrimStartOfTrimmed(u);
    if k == 0 {
      assert u == t;
    }
  }

  /**
   * `_clean_text(t)` is `' '.join(t.split())`: the words of the text, in
   * order, separated by single spaces.
   */
  lemma CleanTextIsJoinedWords(t: string)
    ensures CleanText(Some(t)) == Join(Words(t), " ")
  {
    if t != [] {
      var u := t[SpaceRunLength(t)..];
      var lead := SpaceIf(SpaceRunLength(t) > 0);
      SkipLeadingRun(t);
      var ws := Words(u);
      var j := Join(ws, " ");
      var trail := SpaceIf(ws != [] && IsSpace(u[|u| - 1]));
      CollapseFromWord(u);
      WordsAreWords(u);
      JoinedWordsStripped(ws);
      StripAround(lead, j, trail);
    }
  }

  lemma {:induction false} CollapseKeepsNonSpace(s: string)
    ensures NonSpace(CollapseSpaces(s)) == NonSpace(s)
    decreases |s|
  {
    if s != [] {
      if IsSpace(s[0]) {
        var k := SpaceRunLength(s);
        CollapseKeepsNonSpace(s[k..]);
        assert s == s[..k] + s[k..];
        NonSpaceAppend(s[..k], s[k..]);
        NonSpaceOfSpaces(s[..k]);
        NonSpaceAppend([' '], CollapseSpaces(s[k..]));
        assert NonSpace([' ']) == [] by {
          assert [' '][1..] == [];
        }
      } else {
        CollapseKeepsNonSpace(s[1..]);
      }
    }
  }

  /**
   * The cleaned text has no surrounding whitespace, its only whitespace is
   * single spaces, and it keeps every other character of the input in order.
   */
  lemma CleanTextSpec(text: Option<string>)
    ensures text.None? || text == Some([]) ==> CleanText(text) == []
    ensures Stripped(CleanText(text)) && Collapsed(CleanText(text))
    ensures text.Some? ==> NonSpace(CleanText(text)) == NonSpace(text.value)
  {
    if text.Some? && text.value != [] {
      var t := text.value;
      CleanTextIsJoinedWords(t);
      WordsAreWords(t);
      JoinedWordsStripped(Words(t));
      CollapseKeepsNonSpace(t);
      StripKeepsNonSpace(CollapseSpaces(t));
    }
  }

  /** Cleaning keeps the words of the text: `_clean_text(t).split() == t.split()`. */
  lemma CleanTextKeepsWords(t: string)
    ensures Words(CleanText(Some(t))) == Words(t)
  {
    CleanTextIsJoinedWords(t);
    WordsAreWords(t);
    WordsOfJoin(Words(t));
  }

  /** Cleaning a cleaned text changes nothing. */
  lemma CleanTextIdempotent(text: Option<string>)
    ensures CleanText(Some(CleanText(text))) == CleanText(text)
  {
    if text.Some? {
      CleanTextIsJoinedWords(text.value);
      CleanTextKeepsWords(text.value);
      CleanTextIsJoinedWords(CleanText(text));
    } else {
      assert CleanText(Some([])) == [];
    }
  }
}
