/**
 * The five regular expressions `inspect_data.py` uses to guess the format of a
 * date cell, written out as predicates, and the first-match-wins cascade
 * built from them.
 *
 * `re.match` anchors a pattern only at the start of the string, so the first
 * four are prefix tests. The fifth ends in `$`, which (without MULTILINE)
 * matches at the end of the string or just before a single final newline.
 * A bounded repetition such as `\d{1,2}` is read as "for some run length in
 * the range", which is the set of strings the backtracking matcher accepts.
 */
module DatePatterns {
  import opened Text

  /** The atom `\d{n}` at position `i`. */
  predicate DigitsAt(s: string, i: nat, n: nat) {
    i + n <= |s| && forall k :: i <= k < i + n ==> IsDigit(s[k])
  }

  /** The atom `[A-Za-z]{n}` at position `i`. */
  predicate LettersAt(s: string, i: nat, n: nat) {
    i + n <= |s| && forall k :: i <= k < i + n ==> IsAsciiLetter(s[k])
  }

  /** A literal character at position `i`. */
  predicate CharAt(s: string, i: nat, c: char) {
    i < |s| && s[i] == c
  }

  /** `$` at position `i`. */
  predicate EndAt(s: string, i: nat) {
    i == |s| || (i + 1 == |s| && s[i] == '\n')
  }

  /** Rule 1, `\d{4}-\d{2}-\d{2}`. */
  predicate IsoPrefix(s: string)
    ensures IsoPrefix(s) ==> |s| >= 10
  {
    DigitsAt(s, 0, 4) && CharAt(s, 4, '-') && DigitsAt(s, 5, 2) && CharAt(s, 7, '-') && DigitsAt(s, 8, 2)
  }

  /** `\d{a}` sep `\d{b}` sep `\d{4}` from the start. */
  predicate NumericSplit(s: string, sep: char, a: nat, b: nat) {
    DigitsAt(s, 0, a) && CharAt(s, a, sep) && DigitsAt(s, a + 1, b) && CharAt(s, a + 1 + b, sep)
    && DigitsAt(s, a + 2 + b, 4)
  }

  /** `\d{1,2}` sep `\d{1,2}` sep `\d{4}` from the start. */
  predicate NumericPrefix(s: string, sep: char) {
    exists a: nat, b: nat | 1 <= a <= 2 && 1 <= b <= 2 :: NumericSplit(s, sep, a, b)
  }

  /** Rule 2, `\d{1,2}/\d{1,2}/\d{4}`. */
  predicate SlashPrefix(s: string)
    ensures SlashPrefix(s) ==> |s| >= 8
  {
    NumericPrefix(s, '/')
  }

  /** Rule 3, `\d{1,2}\.\d{1,2}\.\d{4}`. */
  predicate DotPrefix(s: string)
    ensures DotPrefix(s) ==> |s| >= 8
  {
    NumericPrefix(s, '.')
  }

  /** `[A-Za-z]{m} \d{d}, \d{4}` from the start. */
  predicate MonthNameSplit(s: string, m: nat, d: nat) {
    LettersAt(s, 0, m) && CharAt(s, m, ' ') && DigitsAt(s, m + 1, d) && CharAt(s, m + 1 + d, ',')
    && CharAt(s, m + 2 + d, ' ') && DigitsAt(s, m + 3 + d, 4)
  }

  /** Rule 4, `[A-Za-z]{3,9} \d{1,2}, \d{4}`. */
  predicate MonthNamePrefix(s: string)
    ensures MonthNamePrefix(s) ==> |s| >= 11
  {
    exists m: nat, d: nat | 3 <= m <= 9 && 1 <= d <= 2 :: MonthNameSplit(s, m, d)
  }

  /** `[A-Za-z]{m}\. \d{d}$` from the start. */
  predicate AbbrevSplit(s: string, m: nat, d: nat) {
    LettersAt(s, 0, m) && CharAt(s, m, '.') && CharAt(s, m + 1, ' ') && DigitsAt(s, m + 2, d)
    && EndAt(s, m + 2 + d)
  }

  /** Rule 5, `[A-Za-z]{3,9}\. \d{1,2}$`: a month abbreviation and a day, and nothing after. */
  predicate AbbrevNoYear(s: string)
    ensures AbbrevNoYear(s) ==> 6 <= |s| <= 14
  {
    exists m: nat, d: nat | 3 <= m <= 9 && 1 <= d <= 2 :: AbbrevSplit(s, m, d)
  }

  datatype Verdict =
    | Iso               // YYYY-MM-DD
    | SlashNumeric      // MM/DD/YYYY or DD/MM/YYYY
    | DotNumeric        // DD.MM.YYYY or MM.DD.YYYY
    | MonthNameWithYear // Month DD, YYYY
    | MonthAbbrevNoYear // Mon. DD, the year is missing
    | Unrecognized      // none of the branches prints anything

  /** The `if`/`elif` chain over the five patterns: the first that matches decides. */
  function Classify(s: string): (v: Verdict)
    ensures Matches(v, s)
  {
    if IsoPrefix(s) then Iso
    else if SlashPrefix(s) then SlashNumeric
    else if DotPrefix(s) then DotNumeric
    else if MonthNamePrefix(s) then MonthNameWithYear
    else if AbbrevNoYear(s) then MonthAbbrevNoYear
    else Unrecognized
  }

  /** The pattern each verdict stands for. */
  predicate Matches(v: Verdict, s: string) {
    match v
    case Iso => IsoPrefix(s)
    case SlashNumeric => SlashPrefix(s)
    case DotNumeric => DotPrefix(s)
    case MonthNameWithYear => MonthNamePrefix(s)
    case MonthAbbrevNoYear => AbbrevNoYear(s)
    case Unrecognized => !IsoPrefix(s) && !SlashPrefix(s) && !DotPrefix(s) && !MonthNamePrefix(s) && !AbbrevNoYear(s)
  }

  // ---------------------------------------------------------------------------
  // Run lengths. Every pattern starts with a run of digits or of letters that a
  // non-digit or non-letter ends, so the repetition bounds leave no choice:
  // the run the matcher takes is the maximal one.

  /** The length of the maximal run of digits starting at `i`. */
  function DigitRun(s: string, i: nat): (n: nat)
    requires i <= |s|
    ensures DigitsAt(s, i, n)
    ensures i + n < |s| ==> !IsDigit(s[i + n])
    decreases |s| - i
  {
    if i < |s| && IsDigit(s[i]) then 1 + DigitRun(s, i + 1) else 0
  }

  /** The length of the maximal run of letters starting at `i`. */
  function LetterRun(s: string, i: nat): (n: nat)
    requires i <= |s|
    ensures LettersAt(s, i, n)
    ensures i + n < |s| ==> !IsAsciiLetter(s[i + n])
    decreases |s| - i
  {
    if i < |s| && IsAsciiLetter(s[i]) then 1 + LetterRun(s, i + 1) else 0
  }

  /** A run of digits that a non-digit (or the end) closes is the maximal run. */
  lemma {:induction false} DigitRunIs(s: string, i: nat, n: nat)
    requires DigitsAt(s, i, n)
    requires i + n == |s| || !IsDigit(s[i + n])
    ensures DigitRun(s, i) == n
    decreases n
  {
    if n > 0 {
      DigitRunIs(s, i + 1, n - 1);
    }
  }

  /** A run of letters that a non-letter (or the end) closes is the maximal run. */
  lemma {:induction false} LetterRunIs(s: string, i: nat, n: nat)
    requires LettersAt(s, i, n)
    requires i + n == |s| || !IsAsciiLetter(s[i + n])
    ensures LetterRun(s, i) == n
    decreases n
  {
    if n > 0 {
      LetterRunIs(s, i + 1, n - 1);
    }
  }

  // ---------------------------------------------------------------------------
  // The shape of each pattern in terms of the run lengths.

  lemma IsoShape(s: string)
    ensures IsoPrefix(s) ==> DigitRun(s, 0) == 4 && LetterRun(s, 0) == 0
  {
    if IsoPrefix(s) {
      DigitRunIs(s, 0, 4);
      LetterRunIs(s, 0, 0);
    }
  }

  lemma NumericShape(s: string, sep: char)
    requires !IsDigit(sep)
    ensures NumericPrefix(s, sep) ==>
      var a := DigitRun(s, 0);
      1 <= a <= 2 && a < |s| && s[a] == sep && LetterRun(s, 0) == 0
  {
    if NumericPrefix(s, sep) {
      var a: nat, b: nat :| 1 <= a <= 2 && 1 <= b <= 2 && NumericSplit(s, sep, a, b);
      DigitRunIs(s, 0, a);
      LetterRunIs(s, 0, 0);
    }
  }

  lemma MonthNameShape(s: string)
    ensures MonthNamePrefix(s) ==>
      var m := LetterRun(s, 0);
      3 <= m <= 9 && m < |s| && s[m] == ' ' && DigitRun(s, 0) == 0
  {
    if MonthNamePrefix(s) {
      var m: nat, d: nat :| 3 <= m <= 9 && 1 <= d <= 2 && MonthNameSplit(s, m, d);
      LetterRunIs(s, 0, m);
      DigitRunIs(s, 0, 0);
    }
  }

  lemma AbbrevShape(s: string)
    ensures AbbrevNoYear(s) ==>
      var m := LetterRun(s, 0);
      && 3 <= m <= 9 && m + 1 < |s| && s[m] == '.' && s[m + 1] == ' ' && DigitRun(s, 0) == 0
      && var d := DigitRun(s, m + 2);
      1 <= d <= 2 && EndAt(s, m + 2 + d)
  {
    if AbbrevNoYear(s) {
      var m: nat, d: nat :| 3 <= m <= 9 && 1 <= d <= 2 && AbbrevSplit(s, m, d);
      LetterRunIs(s, 0, m);
      DigitRunIs(s, 0, 0);
      DigitRunIs(s, m + 2, d);
    }
  }

  /** The five patterns are pairwise disjoint. */
  lemma PatternsDisjoint(s: string)
    ensures !(IsoPrefix(s) && SlashPrefix(s)) && !(IsoPrefix(s) && DotPrefix(s))
    ensures !(IsoPrefix(s) && MonthNamePrefix(s)) && !(IsoPrefix(s) && AbbrevNoYear(s))
    ensures !(SlashPrefix(s) && DotPrefix(s))
    ensures !(SlashPrefix(s) && MonthNamePrefix(s)) && !(SlashPrefix(s) && AbbrevNoYear(s))
    ensures !(DotPrefix(s) && MonthNamePrefix(s)) && !(DotPrefix(s) && AbbrevNoYear(s))
    ensures !(MonthNamePrefix(s) && AbbrevNoYear(s))
  {
    IsoShape(s);
    NumericShape(s, '/');
    NumericShape(s, '.');
    MonthNameShape(s);
    AbbrevShape(s);
  }

  /**
   * Because the patterns are disjoint, a verdict is given exactly when its own
   * pattern matches, whatever the position of that pattern in the chain: the
   * order of the cascade does not matter.
   */
  lemma ClassifyExact(s: string, v: Verdict)
    ensures Classify(s) == v <==> Matches(v, s)
  {
    PatternsDisjoint(s);
  }

  // ---------------------------------------------------------------------------
  // Rules 1-4 are prefix tests: text after a matching prefix is ignored.

  lemma DigitsAtExtend(s: string, t: string, i: nat, n: nat)
    requires DigitsAt(s, i, n)
    ensures DigitsAt(s + t, i, n)
  {
    forall k | i <= k < i + n ensures IsDigit((s + t)[k]) {
      assert (s + t)[k] == s[k];
    }
  }

  lemma LettersAtExtend(s: string, t: string, i: nat, n: nat)
    requires LettersAt(s, i, n)
    ensures LettersAt(s + t, i, n)
  {
    forall k | i <= k < i + n ensures IsAsciiLetter((s + t)[k]) {
      assert (s + t)[k] == s[k];
    }
  }

  lemma PrefixRulesExtend(s: string, t: string)
    ensures IsoPrefix(s) ==> IsoPrefix(s + t)
    ensures SlashPrefix(s) ==> SlashPrefix(s + t)
    ensures DotPrefix(s) ==> DotPrefix(s + t)
    ensures MonthNamePrefix(s) ==> MonthNamePrefix(s + t)
  {
    if IsoPrefix(s) {
      DigitsAtExtend(s, t, 0, 4);
      DigitsAtExtend(s, t, 5, 2);
      DigitsAtExtend(s, t, 8, 2);
    }
    forall sep | sep == '/' || sep == '.' ensures NumericPrefix(s, sep) ==> NumericPrefix(s + t, sep) {
      if NumericPrefix(s, sep) {
        var a: nat, b: nat :| 1 <= a <= 2 && 1 <= b <= 2 && NumericSplit(s, sep, a, b);
        DigitsAtExtend(s, t, 0, a);
        DigitsAtExtend(s, t, a + 1, b);
        DigitsAtExtend(s, t, a + 2 + b, 4);
        assert NumericSplit(s + t, sep, a, b);
      }
    }
    if MonthNamePrefix(s) {
      var m: nat, d: nat :| 3 <= m <= 9 && 1 <= d <= 2 && MonthNameSplit(s, m, d);
      LettersAtExtend(s, t, 0, m);
      DigitsAtExtend(s, t, m + 1, d);
      DigitsAtExtend(s, t, m + 3 + d, 4);
      assert MonthNameSplit(s + t, m, d);
    }
  }

  /** Any suffix after a string that rules 1-4 recognise keeps its verdict. */
  lemma ClassifyIgnoresSuffix(s: string, t: string)
    requires Classify(s) in {Iso, SlashNumeric, DotNumeric, MonthNameWithYear}
    ensures Classify(s + t) == Classify(s)
  {
    PrefixRulesExtend(s, t);
    ClassifyExact(s, Classify(s));
    ClassifyExact(s + t, Classify(s));
  }

  // ---------------------------------------------------------------------------
  // Examples.

  lemma EmptyIsUnrecognized()
    ensures Classify("") == Unrecognized
  {
    PatternsDisjoint("");
    IsoShape("");
    NumericShape("", '/');
    NumericShape("", '.');
    MonthNameShape("");
    AbbrevShape("");
  }

  lemma DayMonthNameYearIsUnrecognized()
    ensures Classify("11-Jan-2024") == Unrecognized
  {
    var s := "11-Jan-2024";
    assert DigitRun(s, 0) == 2;
    assert LetterRun(s, 0) == 0;
    IsoShape(s);
    NumericShape(s, '/');
    NumericShape(s, '.');
    MonthNameShape(s);
    AbbrevShape(s);
  }

  lemma IsoWithTrailingText()
    ensures Classify("2024-01-11xyz") == Iso
  {
  }

  /** `$` also matches before one final newline, but a third digit is not a day. */
  lemma AbbrevExamples()
    ensures Classify("Jan. 18") == MonthAbbrevNoYear
    ensures Classify("Jan. 11\n") == MonthAbbrevNoYear
    ensures Classify("Jan. 123") == Unrecognized
  {
    assert AbbrevSplit("Jan. 18", 3, 2);
    assert AbbrevSplit("Jan. 11\n", 3, 2);
    var s := "Jan. 123";
    assert LetterRun(s, 0) == 3 && DigitRun(s, 5) == 3;
    AbbrevShape(s);
    MonthNameShape(s);
    IsoShape(s);
    NumericShape(s, '/');
    NumericShape(s, '.');
    ClassifyExact("Jan. 18", MonthAbbrevNoYear);
    ClassifyExact("Jan. 11\n", MonthAbbrevNoYear);
  }
}
