/**
 * The section groupers of the regex-based extractor: `_clean_text` (blank
 * lines removed), `group_education` (one flat line per paragraph) and
 * `group_experience` (a line-classifying parser that builds experiences out
 * of titles, time-and-place lines and sentence points).
 *
 * The regular expressions are modelled by what they match: `\n\s*\n` is a
 * line break, then the longest whitespace stretch that still ends in a line
 * break (the greedy `\s*` backtracks to the last line break of the run).
 */
module PdfRegex {
  import opened Text
  import PdfMatch

  // ----------------------------------------------------------------------
  // Blank lines: the pattern `\n\s*\n`.

  /** The whitespace run that starts `s` holds no line break. */
  predicate NoBreakLead(s: string) {
    forall i :: 0 <= i < SpaceRunLength(s) ==> s[i] != '\n'
  }

  /** No line break is followed, across whitespace only, by another one. */
  predicate NoBlankLine(s: string) {
    forall i :: 0 <= i < |s| && s[i] == '\n' ==> NoBreakLead(s[i + 1..])
  }

  /** `SpaceRunLength` is the index of the first non-whitespace character. */
  lemma RunLengthIs(s: string, n: nat)
    requires n <= |s|
    requires forall i :: 0 <= i < n ==> IsSpace(s[i])
    requires n == |s| || !IsSpace(s[n])
    ensures SpaceRunLength(s) == n
  {
  }

  /** Offset of the last line break in the whitespace run starting `s`, or -1. */
  function LastBreak(s: string): (p: int)
    ensures -1 <= p < SpaceRunLength(s)
    ensures p >= 0 ==> s[p] == '\n'
    ensures forall i :: p < i < SpaceRunLength(s) ==> s[i] != '\n'
  {
    if s == [] || !IsSpace(s[0]) then -1
    else
      var q := LastBreak(s[1..]);
      assert SpaceRunLength(s) == 1 + SpaceRunLength(s[1..]);
      if q >= 0 then q + 1 else if s[0] == '\n' then 0 else -1
  }

  /**
   * Length of the match of `\n\s*\n` at the start of `s`, or 0 when the
   * pattern does not match there.
   */
  function BlankEnd(s: string): (e: nat)
    ensures e == 0 || 2 <= e <= |s|
    ensures e > 0 <==> s != [] && s[0] == '\n' && !NoBreakLead(s[1..])
    ensures e > 0 ==> s[e - 1] == '\n' && (forall i :: 0 <= i < e ==> IsSpace(s[i])) && NoBreakLead(s[e..])
  {
    if s == [] || s[0] != '\n' then 0
    else
      var p := LastBreak(s[1..]);
      if p < 0 then 0
      else
        var t := s[1..];
        RunLengthIs(t[p + 1..], SpaceRunLength(t) - p - 1);
        assert t[p + 1..] == s[p + 2..];
        p + 2
  }

  /** `re.sub(r'\n\s*\n', '\n', s)` */
  function BlankRuns(s: string): string
    decreases |s|
  {
    if s == [] then []
    else
      var e := BlankEnd(s);
      if e > 0 then "\n" + BlankRuns(s[e..]) else [s[0]] + BlankRuns(s[1..])
  }

  /** `re.split(r'\n\s*\n', s)` */
  function SplitBlank(s: string): (parts: seq<string>)
    ensures |parts| >= 1
    decreases |s|
  {
    if s == [] then [[]]
    else
      var e := BlankEnd(s);
      if e > 0 then [[]] + SplitBlank(s[e..])
      else
        var rest := SplitBlank(s[1..]);
        [[s[0]] + rest[0]] + rest[1..]
  }

  /** `_clean_text`: empty text gives "", otherwise blank lines go and the text is stripped. */
  function CleanBlankLines(text: Option<string>): string {
    match text
    case None => []
    case Some(t) => if t == [] then [] else Strip(BlankRuns(t))
  }

  // Substitution and splitting agree.

  lemma JoinCons(c: char, parts: seq<string>)
    requires |parts| >= 1
    ensures Join([[c] + parts[0]] + parts[1..], "\n") == [c] + Join(parts, "\n")
  {
    var ps := [[c] + parts[0]] + parts[1..];
    if |parts| == 1 {
      assert ps == [[c] + parts[0]];
    } else {
      assert |ps| > 1 && ps[0] == [c] + parts[0] && ps[1..] == parts[1..];
      var x := Join(parts[1..], "\n");
      calc {
        Join(ps, "\n");
        ([c] + parts[0]) + "\n" + x;
        { Regroup3(c, parts[0], x); }
        [c] + (parts[0] + "\n" + x);
      }
    }
  }

  /** Regrouping a concatenation, kept apart so the proof of `JoinCons` stays small. */
  lemma Regroup3(c: char, a: string, x: string)
    ensures ([c] + a) + "\n" + x == [c] + (a + "\n" + x)
  {
  }

  /** Joining the pieces of `re.split` with "\n" is the substitution: the two cut at the same places. */
  lemma {:induction false} JoinSplitBlank(s: string)
    ensures Join(SplitBlank(s), "\n") == BlankRuns(s)
    decreases |s|
  {
    if s != [] {
      var e := BlankEnd(s);
      if e > 0 {
        var rest := SplitBlank(s[e..]);
        JoinSplitBlank(s[e..]);
        assert ([[]] + rest)[1..] == rest;
        assert Join([[]] + rest, "\n") == [] + "\n" + Join(rest, "\n");
      } else {
        JoinSplitBlank(s[1..]);
        JoinCons(s[0], SplitBlank(s[1..]));
      }
    }
  }

  // The substitution leaves no blank line.

  lemma ConsLead(c: char, t: string)
    requires !IsSpace(c) || (c != '\n' && NoBreakLead(t))
    ensures NoBreakLead([c] + t)
  {
    if IsSpace(c) {
      assert ([c] + t)[1..] == t;
      assert SpaceRunLength([c] + t) == 1 + SpaceRunLength(t);
    }
  }

  lemma ConsNoBlank(c: char, t: string)
    requires NoBlankLine(t)
    requires c == '\n' ==> NoBreakLead(t)
    ensures NoBlankLine([c] + t)
  {
    var s := [c] + t;
    forall i | 0 <= i < |s| && s[i] == '\n'
      ensures NoBreakLead(s[i + 1..])
    {
      assert s[i + 1..] == if i == 0 then t else t[i..];
    }
  }

  /** A text that does not start with a line break inside whitespace keeps that property. */
  lemma {:induction false} BlankRunsKeepsLead(s: string)
    requires NoBreakLead(s)
    ensures NoBreakLead(BlankRuns(s))
    decreases |s|
  {
    if s != [] {
      if IsSpace(s[0]) {
        assert s[0] != '\n';
        assert SpaceRunLength(s) == 1 + SpaceRunLength(s[1..]);
        BlankRunsKeepsLead(s[1..]);
      }
      ConsLead(s[0], BlankRuns(s[1..]));
    }
  }

  lemma {:induction false} BlankRunsNoBlank(s: string)
    ensures NoBlankLine(BlankRuns(s))
    decreases |s|
  {
    if s != [] {
      var e := BlankEnd(s);
      if e > 0 {
        BlankRunsNoBlank(s[e..]);
        BlankRunsKeepsLead(s[e..]);
        ConsNoBlank('\n', BlankRuns(s[e..]));
      } else {
        BlankRunsNoBlank(s[1..]);
        if s[0] == '\n' {
          BlankRunsKeepsLead(s[1..]);
        }
        ConsNoBlank(s[0], BlankRuns(s[1..]));
      }
    }
  }

  lemma LeadOfPrefix(u: string, m: nat)
    requires m <= |u| && NoBreakLead(u)
    ensures NoBreakLead(u[..m])
  {
  }

  lemma NoBlankOfSlice(s: string, a: nat, b: nat)
    requires a <= b <= |s| && NoBlankLine(s)
    ensures NoBlankLine(s[a..b])
  {
    var t := s[a..b];
    forall i | 0 <= i < |t| && t[i] == '\n'
      ensures NoBreakLead(t[i + 1..])
    {
      assert s[a + i] == '\n';
      assert t[i + 1..] == s[a + i + 1..][..b - a - i - 1];
      LeadOfPrefix(s[a + i + 1..], b - a - i - 1);
    }
  }

  lemma StripIsSlice(s: string)
    ensures exists a, b :: 0 <= a <= b <= |s| && Strip(s) == s[a..b]
  {
    var t := TrimStart(s);
    TrimStartIsSuffix(s);
    var a := |s| - |t|;
    var r := TrimEnd(t);
    assert r == s[a..a + |r|];
  }

  lemma StripNoBlank(s: string)
    requires NoBlankLine(s)
    ensures NoBlankLine(Strip(s))
  {
    StripIsSlice(s);
    var a, b :| 0 <= a <= b <= |s| && Strip(s) == s[a..b];
    NoBlankOfSlice(s, a, b);
  }

  // The substitution keeps every other character.

  lemma {:induction false} BlankRunsKeepsNonSpace(s: string)
    ensures NonSpace(BlankRuns(s)) == NonSpace(s)
    decreases |s|
  {
    if s != [] {
      var e := BlankEnd(s);
      if e > 0 {
        BlankRunsKeepsNonSpace(s[e..]);
        assert s == s[..e] + s[e..];
        NonSpaceAppend(s[..e], s[e..]);
        NonSpaceOfSpaces(s[..e]);
        NonSpaceAppend("\n", BlankRuns(s[e..]));
        assert NonSpace("\n") == [] by {
          assert "\n"[1..] == [];
        }
      } else {
        BlankRunsKeepsNonSpace(s[1..]);
        assert ([s[0]] + BlankRuns(s[1..]))[1..] == BlankRuns(s[1..]);
      }
    }
  }

  /** A text without blank lines passes the substitution unchanged. */
  lemma {:induction false} BlankRunsOfNoBlank(s: string)
    requires NoBlankLine(s)
    ensures BlankRuns(s) == s
    decreases |s|
  {
    if s != [] {
      if s[0] == '\n' {
        assert NoBreakLead(s[0 + 1..]);
      }
      assert BlankEnd(s) == 0;
      NoBlankOfSlice(s, 1, |s|);
      BlankRunsOfNoBlank(s[1..]);
    }
  }

  /**
   * The cleaned text has no surrounding whitespace and no blank line, and it
   * keeps every non-whitespace character of the input, in order.
   */
  lemma CleanBlankLinesSpec(text: Option<string>)
    ensures text.None? || text == Some([]) ==> CleanBlankLines(text) == []
    ensures Stripped(CleanBlankLines(text)) && NoBlankLine(CleanBlankLines(text))
    ensures text.Some? ==> NonSpace(CleanBlankLines(text)) == NonSpace(text.value)
  {
    if text.Some? && text.value != [] {
      var t := text.value;
      BlankRunsNoBlank(t);
      StripNoBlank(BlankRuns(t));
      BlankRunsKeepsNonSpace(t);
      StripKeepsNonSpace(BlankRuns(t));
    }
  }

  /** A text without blank lines is only stripped; cleaning twice is cleaning once. */
  lemma CleanBlankLinesIdempotent(text: Option<string>)
    ensures text.Some? && NoBlankLine(text.value) ==> CleanBlankLines(text) == Strip(text.value)
    ensures CleanBlankLines(Some(CleanBlankLines(text))) == CleanBlankLines(text)
  {
    if text.Some? && NoBlankLine(text.value) {
      BlankRunsOfNoBlank(text.value);
    }
    var c := CleanBlankLines(text);
    CleanBlankLinesSpec(text);
    if c != [] {
      BlankRunsOfNoBlank(c);
      StripOfStripped(c);
    }
  }

  // ----------------------------------------------------------------------
  // group_education

  /** `re.sub(r'\s*\n\s*', ' ', s)`: a whitespace run that holds a line break becomes one space. */
  function JoinLines(s: string): string
    decreases |s|
  {
    if s == [] then []
    else if IsSpace(s[0]) then
      var k := SpaceRunLength(s);
      assert k > 0;
      (if NoBreakLead(s) then s[..k] else " ") + JoinLines(s[k..])
    else [s[0]] + JoinLines(s[1..])
  }

  /** One education paragraph: nothing when it is blank, else its text on one line. */
  function EntryOf(part: string): seq<string> {
    var t := Strip(part);
    if t == [] then [] else [PdfMatch.CollapseSpaces(JoinLines(t))]
  }

  function FlattenEntries(parts: seq<string>): seq<string> {
    if parts == [] then [] else EntryOf(parts[0]) + FlattenEntries(parts[1..])
  }

  /** What `group_education` returns. */
  function EducationEntries(text: string): seq<string> {
    if text == [] then [] else FlattenEntries(SplitBlank(text))
  }

  /** `group_education`: the loop over the paragraphs. */
  method GroupEducation(text: string) returns (entries: seq<string>)
    ensures entries == EducationEntries(text)
  {
    if text == [] {
      return [];
    }
    var parts := SplitBlank(text);
    entries := [];
    for n := 0 to |parts|
      invariant entries == FlattenEntries(parts[..n])
    {
      var entry := Strip(parts[n]);
      if entry != [] {
        entry := JoinLines(entry);
        entry := PdfMatch.CollapseSpaces(entry);
        entries := entries + [entry];
      }
      FlattenAppend(parts[..n], parts[n]);
      assert parts[..n + 1] == parts[..n] + [parts[n]];
    }
    assert parts[..|parts|] == parts;
  }

  lemma {:induction false} FlattenAppend(parts: seq<string>, p: string)
    ensures FlattenEntries(parts + [p]) == FlattenEntries(parts) + EntryOf(p)
  {
    if parts == [] {
      assert FlattenEntries([p]) == EntryOf(p) + FlattenEntries([]);
    } else {
      assert (parts + [p])[0] == parts[0] && (parts + [p])[1..] == parts[1..] + [p];
      FlattenAppend(parts[1..], p);
    }
  }

  // Collapsing makes the line-break substitution redundant.

  lemma JoinLinesStart(t: string)
    requires t == [] || !IsSpace(t[0])
    ensures JoinLines(t) == [] || !IsSpace(JoinLines(t)[0])
  {
  }

  lemma {:induction false} CollapseJoinLines(s: string)
    ensures PdfMatch.CollapseSpaces(JoinLines(s)) == PdfMatch.CollapseSpaces(s)
    decreases |s|
  {
    if s != [] {
      if IsSpace(s[0]) {
        var k := SpaceRunLength(s);
        var rest := s[k..];
        var pre: string := if NoBreakLead(s) then s[..k] else " ";
        var j := JoinLines(rest);
        assert JoinLines(s) == pre + j;
        JoinLinesStart(rest);
        SpaceRunLengthOfPrefix(pre, j);
        assert (pre + j)[|pre|..] == j;
        CollapseJoinLines(rest);
      } else {
        CollapseJoinLines(s[1..]);
        assert ([s[0]] + JoinLines(s[1..]))[1..] == JoinLines(s[1..]);
      }
    }
  }

  /** An entry is one non-empty line without surrounding or doubled whitespace. */
  predicate Flat(e: string) {
    e != [] && Stripped(e) && PdfMatch.Collapsed(e) && '\n' !in e
  }

  lemma EntryFlat(part: string)
    ensures forall i :: 0 <= i < |EntryOf(part)| ==> Flat(EntryOf(part)[i])
  {
    var t := Strip(part);
    if t != [] {
      CollapseJoinLines(t);
      PdfMatch.TrimStartOfTrimmed(t);
      PdfMatch.CollapseFromWord(t);
      var ws := Words(t);
      assert ws != [];
      assert PdfMatch.SpaceIf(ws != [] && IsSpace(t[|t| - 1])) == [];
      WordsAreWords(t);
      PdfMatch.JoinedWordsStripped(ws);
      var e := Join(ws, " ");
      assert EntryOf(part) == [e + []];
      assert e + [] == e;
      assert forall i :: 0 <= i < |e| ==> e[i] != '\n';
    }
  }

  lemma {:induction false} FlattenFlat(parts: seq<string>)
    ensures forall i :: 0 <= i < |FlattenEntries(parts)| ==> Flat(FlattenEntries(parts)[i])
  {
    if parts != [] {
      EntryFlat(parts[0]);
      FlattenFlat(parts[1..]);
    }
  }

  // Flattening keeps the text.

  /** The non-whitespace characters of every string, in order. */
  function NonSpaceAll(ws: seq<string>): string {
    if ws == [] then [] else NonSpace(ws[0]) + NonSpaceAll(ws[1..])
  }

  lemma {:induction false} NonSpaceOfJoin(ws: seq<string>, sep: string)
    requires PdfMatch.AllSpace(sep)
    ensures NonSpace(Join(ws, sep)) == NonSpaceAll(ws)
  {
    if |ws| == 1 {
      assert NonSpaceAll(ws) == NonSpace(ws[0]) + NonSpaceAll([]);
    } else if |ws| > 1 {
      NonSpaceOfJoin(ws[1..], sep);
      NonSpaceAppend(ws[0] + sep, Join(ws[1..], sep));
      NonSpaceAppend(ws[0], sep);
      NonSpaceOfSpaces(sep);
    }
  }

  lemma EntryKeepsNonSpace(part: string)
    ensures NonSpaceAll(EntryOf(part)) == NonSpace(part)
  {
    var t := Strip(part);
    StripKeepsNonSpace(part);
    if t != [] {
      var e := PdfMatch.CollapseSpaces(JoinLines(t));
      CollapseJoinLines(t);
      PdfMatch.CollapseKeepsNonSpace(t);
      assert NonSpaceAll([e]) == NonSpace(e) + NonSpaceAll([]);
    }
  }

  lemma {:induction false} NonSpaceAllAppend(a: seq<string>, b: seq<string>)
    ensures NonSpaceAll(a + b) == NonSpaceAll(a) + NonSpaceAll(b)
  {
    if a != [] {
      assert (a + b)[0] == a[0] && (a + b)[1..] == a[1..] + b;
      NonSpaceAllAppend(a[1..], b);
    } else {
      assert a + b == b;
    }
  }

  lemma {:induction false} FlattenKeepsNonSpace(parts: seq<string>)
    ensures NonSpaceAll(FlattenEntries(parts)) == NonSpaceAll(parts)
  {
    if parts != [] {
      EntryKeepsNonSpace(parts[0]);
      FlattenKeepsNonSpace(parts[1..]);
      NonSpaceAllAppend(EntryOf(parts[0]), FlattenEntries(parts[1..]));
    }
  }

  /**
   * `group_education` gives nothing for empty text; otherwise one flat line
   * per non-blank paragraph, which together hold every non-whitespace
   * character of the text, in order.
   */
  lemma EducationEntriesSpec(text: string)
    ensures text == [] ==> EducationEntries(text) == []
    ensures forall i :: 0 <= i < |EducationEntries(text)| ==> Flat(EducationEntries(text)[i])
    ensures NonSpace(Join(EducationEntries(text), " ")) == NonSpace(text)
  {
    if text != [] {
      var parts := SplitBlank(text);
      FlattenFlat(parts);
      NonSpaceOfJoin(FlattenEntries(parts), " ");
      FlattenKeepsNonSpace(parts);
      NonSpaceOfJoin(parts, "\n");
      JoinSplitBlank(text);
      BlankRunsKeepsNonSpace(text);
    }
  }

  // ----------------------------------------------------------------------
  // group_experience: line classification.

  /** `[line.strip() for line in parts if line.strip()]` */
  function NonBlank(parts: seq<string>): (lines: seq<string>)
    ensures forall i :: 0 <= i < |lines| ==> lines[i] != [] && Stripped(lines[i])
  {
    if parts == [] then []
    else
      var t := Strip(parts[0]);
      var rest := NonBlank(parts[1..]);
      if t == [] then rest else [t] + rest
  }

  /** The stripped non-blank lines of `text.split('\n')`. */
  function NonBlankLines(text: string): (lines: seq<string>)
    ensures forall i :: 0 <= i < |lines| ==> lines[i] != [] && Stripped(lines[i])
  {
    NonBlank(SplitOn(text, '\n'))
  }

  /** `re.sub(r'[^\w\s]', '', line)`: keeps word characters and whitespace only. */
  function WordAndSpace(s: string): (r: string)
    ensures forall i :: 0 <= i < |r| ==> IsWordChar(r[i]) || IsSpace(r[i])
  {
    if s == [] then []
    else
      var rest := WordAndSpace(s[1..]);
      if IsWordChar(s[0]) || IsSpace(s[0]) then [s[0]] + rest else rest
  }

  /** How many of the words start with an upper-case letter. */
  function CapitalisedCount(ws: seq<string>): (n: nat)
    ensures n <= |ws|
  {
    if ws == [] then 0
    else (if ws[0] != [] && IsUpper(ws[0][0]) then 1 else 0) + CapitalisedCount(ws[1..])
  }

  /**
   * `is_title_case_line`: the line has a word once punctuation is removed,
   * and at least 70% of its words start with a capital. The ratio test
   * `capital / len >= 0.7` is written over integers.
   */
  predicate IsTitleCaseLine(line: string) {
    var ws := Words(WordAndSpace(line));
    line != [] && ws != [] && 10 * CapitalisedCount(ws) >= 7 * |ws|
  }

  /** `is_sentence`: starts with a capital and ends in '.' or ',' or is longer than 50. */
  predicate IsSentence(line: string) {
    line != [] && IsUpper(line[0]) && (EndsWith(line, '.') || EndsWith(line, ',') || |line| > 50)
  }

  /**
   * `is_invalid_title`: the stripped title starts, ignoring case, with one
   * of the section words of the pattern's alternation.
   */
  predicate IsInvalidTitle(title: string) {
    var t := Lower(Strip(title));
    || StartsWith(t, "qualifications") || StartsWith(t, "accomplishments")
    || StartsWith(t, "achievements") || StartsWith(t, "awards")
    || StartsWith(t, "certifications") || StartsWith(t, "projects")
    || StartsWith(t, "skills") || StartsWith(t, "keahlian")
    || StartsWith(t, "education") || StartsWith(t, "pendidikan")
    || StartsWith(t, "contact") || StartsWith(t, "kontak")
    || StartsWith(t, "references") || StartsWith(t, "referensi")
    || StartsWith(t, "interest")
  }

  // ----------------------------------------------------------------------
  // group_experience: the parser.

  /** One entry of the result: `{'title', 'timePlace', 'points'}`. */
  datatype Experience = Experience(title: string, timePlace: string, points: seq<string>)

  /** Parser state: the experiences saved so far and the one being built. */
  datatype Parse = Parse(saved: seq<Experience>, current: Option<Experience>)

  /** What the outer loop does with a line. */
  datatype LineKind = TitleLine | PointLine | OtherLine

  /**
   * A title-case line that is not a sentence opens an experience; a sentence
   * that is not title-case adds a point; any other line is skipped.
   */
  function Classify(line: string): LineKind {
    if IsTitleCaseLine(line) && !IsSentence(line) then TitleLine
    else if IsSentence(line) && !IsTitleCaseLine(line) then PointLine
    else OtherLine
  }

  /** The classifier of lines `group_experience` uses, as a value. */
  type Classifier = string -> LineKind

  /** The inner time-and-place loop stops at the first sentence from `j` on. */
  function TimePlaceEnd(lines: seq<string>, j: nat): (e: nat)
    requires j <= |lines|
    ensures j <= e <= |lines|
    ensures forall k :: j <= k < e ==> !IsSentence(lines[k])
    ensures e == |lines| || IsSentence(lines[e])
    decreases |lines| - j
  {
    if j == |lines| || IsSentence(lines[j]) then j else TimePlaceEnd(lines, j + 1)
  }

  /** The inner point loop: lines from `j` on are appended until the point ends with '.'. */
  function PointFrom(lines: seq<string>, line: string, j: nat): (r: (string, nat))
    requires j <= |lines|
    ensures j <= r.1 <= |lines|
    decreases |lines| - j
  {
    if j < |lines| && !EndsWith(line, '.') then PointFrom(lines, line + lines[j], j + 1) else (line, j)
  }

  /** The experiences saved when a new title arrives. */
  function SaveCurrent(st: Parse): seq<Experience> {
    if st.current.Some? && |st.current.value.points| > 0 then st.saved + [st.current.value] else st.saved
  }

  /** One pass of the outer loop from line `i`: the next `i` and the new state. */
  function Step(lines: seq<string>, i: nat, st: Parse, kind: Classifier): (r: (nat, Parse))
    requires i < |lines|
    ensures i < r.0 <= |lines|
  {
    var line := lines[i];
    match kind(line)
    case TitleLine =>
      var e := TimePlaceEnd(lines, i + 1);
      (e, Parse(SaveCurrent(st), Some(Experience(line, Join(lines[i + 1..e], " "), []))))
    case PointLine =>
      if st.current.Some? then
        var (p, e) := PointFrom(lines, line, i + 1);
        var c := st.current.value;
        (e, Parse(st.saved, Some(c.(points := c.points + [p]))))
      else (i + 1, st)
    case OtherLine => (i + 1, st)
  }

  /** The outer loop from line `i` to the end. */
  function Run(lines: seq<string>, i: nat, st: Parse, kind: Classifier): Parse
    requires i <= |lines|
    decreases |lines| - i
  {
    if i == |lines| then st
    else
      var (i', st') := Step(lines, i, st, kind);
      Run(lines, i', st', kind)
  }

  /** After the loop the experience being built is kept when it has points and a valid title. */
  function Finish(st: Parse): seq<Experience> {
    match st.current
    case Some(c) => if !IsInvalidTitle(c.title) && |c.points| > 0 then st.saved + [c] else st.saved
    case None => st.saved
  }

  function ParseLines(lines: seq<string>, kind: Classifier): seq<Experience> {
    Finish(Run(lines, 0, Parse([], None), kind))
  }

  /** What `group_experience` returns. */
  function GroupedExperiences(text: string): seq<Experience> {
    if text == [] then [] else ParseLines(NonBlankLines(text), Classify)
  }

  /** `group_experience`: the outer loop over the lines, then the check of the last experience. */
  method GroupExperience(text: string) returns (experiences: seq<Experience>)
    ensures experiences == GroupedExperiences(text)
  {
    if text == [] {
      return [];
    }
    var lines := NonBlankLines(text);
    experiences := [];
    var current: Option<Experience> := None;
    var i := 0;
    while i < |lines|
      invariant i <= |lines|
      invariant Run(lines, i, Parse(experiences, current), Classify) == Run(lines, 0, Parse([], None), Classify)
      decreases |lines| - i
    {
      i, experiences, current := ParseLine(lines, i, experiences, current);
    }
    if current.Some? && !IsInvalidTitle(current.value.title) && |current.value.points| > 0 {
      experiences := experiences + [current.value];
    }
  }

  /** One pass of the outer loop: a title starts an experience, a sentence adds a point. */
  method ParseLine(lines: seq<string>, i: nat, saved: seq<Experience>, current: Option<Experience>)
    returns (i': nat, saved': seq<Experience>, current': Option<Experience>)
    requires i < |lines|
    requires forall k :: 0 <= k < |lines| ==> lines[k] != []
    ensures (i', Parse(saved', current')) == Step(lines, i, Parse(saved, current), Classify)
  {
    var line := lines[i];
    saved', current' := saved, current;
    if IsTitleCaseLine(line) && !IsSentence(line) {
      if current.Some? && |current.value.points| > 0 {
        saved' := saved + [current.value];
      }
      var j, parts := TimePlaceLines(lines, i + 1);
      current' := Some(Experience(line, Join(parts, " "), []));
      i' := j - 1;
    } else if current.Some? && IsSentence(line) && !IsTitleCaseLine(line) {
      var j;
      line, j := ExtendPoint(lines, line, i + 1);
      i' := j - 1;
      current' := Some(current.value.(points := current.value.points + [line]));
    } else {
      i' := i;
    }
    i' := i' + 1;
  }

  /** The time-and-place loop: every line up to the next sentence. */
  method TimePlaceLines(lines: seq<string>, start: nat) returns (j: nat, parts: seq<string>)
    requires 0 < start <= |lines|
    requires forall k :: 0 <= k < |lines| ==> lines[k] != []
    ensures j == TimePlaceEnd(lines, start) && parts == lines[start..j]
  {
    j := start;
    parts := [];
    while j < |lines|
      invariant start <= j <= |lines|
      invariant parts == lines[start..j]
      invariant TimePlaceEnd(lines, j) == TimePlaceEnd(lines, start)
      decreases |lines| - j
    {
      var next := lines[j];
      assert lines[start..j + 1] == lines[start..j] + [next];
      if IsTitleCaseLine(next) && !IsSentence(next) {
        parts := parts + [next];
        j := j + 1;
      } else if IsSentence(next) {
        break;
      } else {
        if next != [] && !IsSentence(next) {
          parts := parts + [next];
        }
        j := j + 1;
      }
    }
  }

  /** The point loop: `line += lines[j]` until the point ends with '.'. */
  method ExtendPoint(lines: seq<string>, line: string, start: nat) returns (point: string, j: nat)
    requires start <= |lines|
    ensures (point, j) == PointFrom(lines, line, start)
  {
    point, j := line, start;
    while j < |lines| && !EndsWith(point, '.')
      invariant start <= j <= |lines|
      invariant PointFrom(lines, point, j) == PointFrom(lines, line, start)
      decreases |lines| - j
    {
      point := point + lines[j];
      j := j + 1;
    }
  }

  // ----------------------------------------------------------------------
  // group_experience: what the parser promises.

  /** `''.join(ss)` */
  function Concat(ss: seq<string>): string {
    if ss == [] then [] else ss[0] + Concat(ss[1..])
  }

  /**
   * A point is its first line followed, with no separator, by the next lines
   * up to the first point-so-far that ends with '.', or up to the last line.
   */
  lemma {:induction false} PointFromSpec(lines: seq<string>, line: string, j: nat)
    requires j <= |lines|
    ensures var (p, e) := PointFrom(lines, line, j);
      && p == line + Concat(lines[j..e])
      && (EndsWith(p, '.') || e == |lines|)
      && forall k :: j <= k < e ==> !EndsWith(line + Concat(lines[j..k]), '.')
    decreases |lines| - j
  {
    var (p, e) := PointFrom(lines, line, j);
    if j < |lines| && !EndsWith(line, '.') {
      var line' := line + lines[j];
      PointFromSpec(lines, line', j + 1);
      assert lines[j..e][0] == lines[j] && lines[j..e][1..] == lines[j + 1..e];
      assert p == line + Concat(lines[j..e]) by {
        assert line + lines[j] + Concat(lines[j + 1..e]) == line + (lines[j] + Concat(lines[j + 1..e]));
      }
      forall k | j <= k < e
        ensures !EndsWith(line + Concat(lines[j..k]), '.')
      {
        if k == j {
          assert line + Concat(lines[j..k]) == line;
        } else {
          assert lines[j..k][0] == lines[j] && lines[j..k][1..] == lines[j + 1..k];
          assert line + lines[j] + Concat(lines[j + 1..k]) == line + (lines[j] + Concat(lines[j + 1..k]));
        }
      }
    } else {
      assert line + Concat(lines[j..j]) == line;
    }
  }

  /** An experience's title is a title line of the input and every point starts with a capital. */
  predicate Titled(lines: seq<string>, e: Experience, kind: Classifier) {
    && e.title in lines && kind(e.title) == TitleLine
    && forall k :: 0 <= k < |e.points| ==> e.points[k] != [] && IsUpper(e.points[k][0])
  }

  /** Saved experiences are titled and have points; the current one is titled. */
  predicate GoodParse(lines: seq<string>, st: Parse, kind: Classifier) {
    && (forall k :: 0 <= k < |st.saved| ==> Titled(lines, st.saved[k], kind) && |st.saved[k].points| > 0)
    && (st.current.Some? ==> Titled(lines, st.current.value, kind))
  }

  /** Point lines start with a capital. */
  ghost predicate PointsCapitalised(kind: Classifier) {
    forall l :: kind(l) == PointLine ==> l != [] && IsUpper(l[0])
  }

  lemma StepKeepsGood(lines: seq<string>, i: nat, st: Parse, kind: Classifier)
    requires i < |lines| && GoodParse(lines, st, kind) && PointsCapitalised(kind)
    ensures GoodParse(lines, Step(lines, i, st, kind).1, kind)
  {
    var line := lines[i];
    if kind(line) == PointLine && st.current.Some? {
      PointFromSpec(lines, line, i + 1);
      var p := PointFrom(lines, line, i + 1).0;
      assert p[0] == line[0];
      var c := st.current.value;
      var c' := c.(points := c.points + [p]);
      assert Step(lines, i, st, kind).1 == Parse(st.saved, Some(c'));
      assert forall k :: 0 <= k < |c'.points| ==> c'.points[k] != [] && IsUpper(c'.points[k][0]);
    }
  }

  lemma {:induction false} RunKeepsGood(lines: seq<string>, i: nat, st: Parse, kind: Classifier)
    requires i <= |lines| && GoodParse(lines, st, kind) && PointsCapitalised(kind)
    ensures GoodParse(lines, Run(lines, i, st, kind), kind)
    decreases |lines| - i
  {
    if i < |lines| {
      StepKeepsGood(lines, i, st, kind);
      var (i', st') := Step(lines, i, st, kind);
      RunKeepsGood(lines, i', st', kind);
    }
  }

  lemma ClassifyPoints()
    ensures PointsCapitalised(Classify)
  {
  }

  /** Whatever the classifier, every experience returned is titled and has points. */
  lemma ParseLinesGood(lines: seq<string>, kind: Classifier)
    requires PointsCapitalised(kind)
    ensures var r := ParseLines(lines, kind);
      forall k :: 0 <= k < |r| ==> Titled(lines, r[k], kind) && |r[k].points| > 0
  {
    RunKeepsGood(lines, 0, Parse([], None), kind);
  }

  lemma TitledByClassify(lines: seq<string>, e: Experience)
    requires Titled(lines, e, Classify)
    ensures e.title in lines && IsTitleCaseLine(e.title) && !IsSentence(e.title)
  {
  }

  /**
   * `group_experience` gives nothing for empty text, and every experience it
   * returns has at least one point, a title that is a title-case line of the
   * text and not a sentence, and points that start with a capital.
   */
  lemma GroupedExperiencesSpec(text: string)
    ensures text == [] ==> GroupedExperiences(text) == []
    ensures var r := GroupedExperiences(text);
      forall k :: 0 <= k < |r| ==>
        && |r[k].points| > 0
        && r[k].title in NonBlankLines(text) && IsTitleCaseLine(r[k].title) && !IsSentence(r[k].title)
        && forall m :: 0 <= m < |r[k].points| ==> r[k].points[m] != [] && IsUpper(r[k].points[m][0])
  {
    if text != [] {
      var lines := NonBlankLines(text);
      var r := ParseLines(lines, Classify);
      ClassifyPoints();
      ParseLinesGood(lines, Classify);
      forall k | 0 <= k < |r|
        ensures r[k].title in lines && IsTitleCaseLine(r[k].title) && !IsSentence(r[k].title)
      {
        TitledByClassify(lines, r[k]);
      }
    }
  }

  // Only the last experience's title is checked.

  lemma {:induction false} WordAndSpaceKeeps(s: string)
    requires forall i :: 0 <= i < |s| ==> IsWordChar(s[i]) || IsSpace(s[i])
    ensures WordAndSpace(s) == s
  {
    if s != [] {
      WordAndSpaceKeeps(s[1..]);
    }
  }

  /** A single capitalised word of at most 50 word characters is a title and not a sentence. */
  lemma CapitalisedWordIsTitle(w: string)
    requires w != [] && |w| <= 50 && IsUpper(w[0])
    requires forall i :: 0 <= i < |w| ==> IsWordChar(w[i])
    ensures IsTitleCaseLine(w) && !IsSentence(w)
  {
    WordAndSpaceKeeps(w);
    WordsOfJoin([w]);
    assert Join([w], " ") == w;
    assert CapitalisedCount([w]) == 1 + CapitalisedCount([]);
  }

  /** The sample point line is not a title: one word in two is capitalised. */
  lemma SamplePoint()
    ensures !IsTitleCaseLine("Ab cd.")
  {
    var s := "Ab cd.";
    assert s[..5] + s[5..] == s;
    WordAndSpaceKeeps(s[..5]);
    assert WordAndSpace(s) == s[..5] by {
      WordAndSpaceAppend(s[..5], s[5..]);
      assert WordAndSpace(s[5..]) == [] by {
        assert s[5..] == "." && "."[1..] == [];
      }
    }
    var ws := ["Ab", "cd"];
    assert Join(ws, " ") == s[..5] by {
      assert ws[1..] == ["cd"];
    }
    WordsOfJoin(ws);
    assert CapitalisedCount(ws) == 1 by {
      assert ws[1..] == ["cd"] && ["cd"][1..] == [];
    }
  }

  lemma {:induction false} WordAndSpaceAppend(a: string, b: string)
    ensures WordAndSpace(a + b) == WordAndSpace(a) + WordAndSpace(b)
  {
    if a == [] {
      assert a + b == b;
    } else {
      assert (a + b)[0] == a[0] && (a + b)[1..] == a[1..] + b;
      WordAndSpaceAppend(a[1..], b);
    }
  }

  lemma LowerSkills()
    ensures Lower("Skills") == "skills"
  {
    var r := Lower("Skills");
    assert r[0] == LowerChar('S') == 's';
    assert r[1..] == "kills";
  }

  /** "Skills" starts with a section word. */
  lemma SkillsIsInvalid()
    ensures IsInvalidTitle("Skills")
  {
    StripOfStripped("Skills");
    LowerSkills();
    assert Lower(Strip("Skills"))[..6] == "skills";
  }

  /** "Ab" is shorter than every section word. */
  lemma AbIsValid()
    ensures !IsInvalidTitle("Ab")
  {
    StripOfStripped("Ab");
    assert |Lower(Strip("Ab"))| == 2;
  }

  /** "Skills" is a title line. */
  lemma SkillsIsTitle()
    ensures Classify("Skills") == TitleLine
  {
    CapitalisedWordIsTitle("Skills");
  }

  /** "Ab" is a title line. */
  lemma AbIsTitle()
    ensures Classify("Ab") == TitleLine
  {
    CapitalisedWordIsTitle("Ab");
  }

  /** The sample point is a sentence and a point line. */
  lemma SampleLines()
    ensures Classify("Ab cd.") == PointLine && IsSentence("Ab cd.")
  {
    SamplePoint();
  }

  /**
   * Only the experience still open at the end has its title checked: for a
   * title, a point, a second title and a point again, the first experience is
   * kept whatever its title, and the second is dropped exactly when its title
   * starts with a section word. `SecondSkillsDropped` and `SecondAbKept`
   * run it on real lines.
   */
  lemma OnlyLastTitleChecked(first: string, point: string, next: string, kind: Classifier)
    requires kind(first) == TitleLine && kind(next) == TitleLine
    requires kind(point) == PointLine && IsSentence(point) && EndsWith(point, '.')
    ensures ParseLines([first, point, next, point], kind)
         == [Experience(first, "", [point])] + (if IsInvalidTitle(next) then [] else [Experience(next, "", [point])])
  {
    var lines := [first, point, next, point];
    var e1 := Experience(first, "", []);
    var e2 := Experience(next, "", []);
    var p := [point];
    var st0 := Parse([], None);
    var st1 := Parse([], Some(e1));
    var st2 := Parse([], Some(e1.(points := p)));
    var st3 := Parse([e1.(points := p)], Some(e2));
    var st4 := Parse([e1.(points := p)], Some(e2.(points := p)));
    assert lines[0] == first && lines[1] == point && lines[2] == next && lines[3] == point;
    assert SaveCurrent(st0) == [] && SaveCurrent(st2) == [e1.(points := p)];
    assert e1.points + [point] == p && e2.points + [point] == p;
    StepOfTitle(lines, 0, st0, 1, kind);
    StepOfPoint(lines, 1, st1, 2, kind);
    StepOfTitle(lines, 2, st2, 3, kind);
    StepOfPoint(lines, 3, st3, 4, kind);
    RunStep(lines, 0, st0, kind);
    RunStep(lines, 1, st1, kind);
    RunStep(lines, 2, st2, kind);
    RunStep(lines, 3, st3, kind);
    assert Run(lines, 0, st0, kind) == Run(lines, 1, st1, kind);
    assert Run(lines, 1, st1, kind) == Run(lines, 2, st2, kind);
    assert Run(lines, 2, st2, kind) == Run(lines, 3, st3, kind);
    assert Run(lines, 3, st3, kind) == Run(lines, 4, st4, kind);
    assert |lines| == 4 && Run(lines, 4, st4, kind) == st4;
    assert e1.(points := p) == Experience(first, "", [point]);
    assert e2.(points := p) == Experience(next, "", [point]);
  }

  /**
   * The parser on real lines: a second "Skills" experience is dropped as a
   * section heading, while the first one, never checked, is kept.
   */
  lemma SecondSkillsDropped()
    ensures ParseLines(["Skills", "Ab cd.", "Skills", "Ab cd."], Classify) == [Experience("Skills", "", ["Ab cd."])]
  {
    SkillsIsTitle();
    SampleLines();
    SkillsIsInvalid();
    assert EndsWith("Ab cd.", '.');
    OnlyLastTitleChecked("Skills", "Ab cd.", "Skills", Classify);
  }

  /** The parser on real lines: a second experience titled "Ab" is kept beside the first. */
  lemma SecondAbKept()
    ensures ParseLines(["Skills", "Ab cd.", "Ab", "Ab cd."], Classify)
         == [Experience("Skills", "", ["Ab cd."]), Experience("Ab", "", ["Ab cd."])]
  {
    SkillsIsTitle();
    AbIsTitle();
    SampleLines();
    AbIsValid();
    assert EndsWith("Ab cd.", '.');
    OnlyLastTitleChecked("Skills", "Ab cd.", "Ab", Classify);
  }

  lemma RunStep(lines: seq<string>, i: nat, st: Parse, kind: Classifier)
    requires i < |lines|
    ensures Run(lines, i, st, kind) == Run(lines, Step(lines, i, st, kind).0, Step(lines, i, st, kind).1, kind)
  {
  }

  /** A title line followed by a sentence: the experience opens with an empty time and place. */
  lemma StepOfTitle(lines: seq<string>, i: nat, st: Parse, j: nat, kind: Classifier)
    requires j == i + 1 < |lines| && kind(lines[i]) == TitleLine && IsSentence(lines[j])
    ensures Step(lines, i, st, kind) == (j, Parse(SaveCurrent(st), Some(Experience(lines[i], "", []))))
  {
    assert TimePlaceEnd(lines, j) == j;
    assert lines[j..j] == [];
  }

  /** A point line that already ends with '.' is a whole point. */
  lemma StepOfPoint(lines: seq<string>, i: nat, st: Parse, j: nat, kind: Classifier)
    requires j == i + 1 <= |lines| && st.current.Some?
    requires kind(lines[i]) == PointLine && EndsWith(lines[i], '.')
    ensures Step(lines, i, st, kind) == (j, Parse(st.saved, Some(st.current.value.(points := st.current.value.points + [lines[i]]))))
  {
    assert PointFrom(lines, lines[i], j) == (lines[i], j);
  }
}
