/** The order in which work items and projects are listed: every copy of
    `getSortValue` lower-cases the text, looks for the leftmost month word
    followed by a four-digit year, and scores it `year * 12 + month`, plus
    100000 when the text mentions "present". Two expressions exist: the bare
    `(\w+)\s+(\d{4})` (work periods everywhere, and project roles on the
    dashboard) and the parenthesised `\((\w+)\s+(\d{4})` (project roles in the
    projects API and library). */
module Chronology {
  import opened Wrappers
  import opened Text

  datatype Pattern =
    | Bare           // (\w+)\s+(\d{4})
    | Parenthesised  // \((\w+)\s+(\d{4})

  /** The two captures of a match: the word and the four digits. */
  datatype DateMatch = DateMatch(word: string, digits: string) {
    predicate WellFormed() {
      |digits| == 4 && forall m :: 0 <= m < 4 ==> IsDigit(digits[m])
    }
  }

  /** A calendar position: a year and a zero-based month. */
  datatype Date = Date(year: nat, month: nat)

  predicate FourDigitsAt(s: string, k: nat) {
    k + 4 <= |s| && forall m :: k <= m < k + 4 ==> IsDigit(s[m])
  }

  /** The bare expression matches `s` from `i`, with the word `s[i..j]`, the
      white space `s[j..k]` and the digits `s[k..k + 4]`. */
  predicate MatchesAt(s: string, i: nat, j: nat, k: nat) {
    i < j < k && FourDigitsAt(s, k)
    && (forall m :: i <= m < j ==> IsWordChar(s[m]))
    && (forall m :: j <= m < k ==> IsSpace(s[m]))
  }

  /** The bare expression tried at position `i`. Backtracking inside `\w+` or
      `\s+` never yields a second way to match, so the captures are those of
      the only decomposition. */
  function TryAt(s: string, i: nat): (r: Option<DateMatch>)
    ensures forall j: nat, k: nat :: MatchesAt(s, i, j, k) ==> r == Some(DateMatch(s[i..j], s[k..k + 4]))
    ensures r.Some? ==> i < |s| && MatchesAt(s, i, WordEnd(s, i), SpaceEnd(s, WordEnd(s, i)))
    ensures r.Some? ==> r.value.WellFormed()
  {
    if i < |s| && IsWordChar(s[i]) then
      var j := WordEnd(s, i);
      if j < |s| && IsSpace(s[j]) then
        var k := SpaceEnd(s, j);
        if FourDigitsAt(s, k) then
          Unique(s, i, j, k);
          Some(DateMatch(s[i..j], s[k..k + 4]))
        else
          NoMatchAt(s, i);
          None
      else
        NoMatchAt(s, i);
        None
    else
      NoMatchAt(s, i);
      None
  }

  /** Any decomposition of a match at `i` is the one `WordEnd` and `SpaceEnd` find. */
  lemma DecompositionIsRuns(s: string, i: nat, j: nat, k: nat)
    requires MatchesAt(s, i, j, k)
    ensures j == WordEnd(s, i) && k == SpaceEnd(s, j)
  {
    WordEndOfRun(s, i, j);
    SpaceEndOfRun(s, j, k);
  }

  lemma Unique(s: string, i: nat, j: nat, k: nat)
    requires i < |s| && j == WordEnd(s, i) && j < |s| && IsSpace(s[j]) && k == SpaceEnd(s, j)
    ensures forall j': nat, k': nat :: MatchesAt(s, i, j', k') ==> j' == j && k' == k
  {
    forall j': nat, k': nat | MatchesAt(s, i, j', k') ensures j' == j && k' == k {
      DecompositionIsRuns(s, i, j', k');
    }
  }

  lemma NoMatchAt(s: string, i: nat)
    requires !(i < |s| && IsWordChar(s[i]) && WordEnd(s, i) < |s| && IsSpace(s[WordEnd(s, i)])
               && FourDigitsAt(s, SpaceEnd(s, WordEnd(s, i))))
    ensures forall j: nat, k: nat :: !MatchesAt(s, i, j, k)
  {
    forall j: nat, k: nat | MatchesAt(s, i, j, k) ensures false {
      DecompositionIsRuns(s, i, j, k);
    }
  }

  /** The pattern tried at position `i` of the subject. */
  function AttemptAt(p: Pattern, s: string, i: nat): (r: Option<DateMatch>)
    ensures r.Some? ==> i < |s| && r.value.WellFormed()
  {
    match p
    case Bare => TryAt(s, i)
    case Parenthesised => if i < |s| && s[i] == '(' then TryAt(s, i + 1) else None
  }

  /** The leftmost position at or after `from` where the pattern matches. */
  function FirstMatch(p: Pattern, s: string, from: nat): (r: Option<nat>)
    ensures r.Some? ==> from <= r.value < |s| && AttemptAt(p, s, r.value).Some?
    ensures r.Some? ==> forall i: nat :: from <= i < r.value ==> AttemptAt(p, s, i).None?
    ensures r.None? ==> forall i: nat :: from <= i ==> AttemptAt(p, s, i).None?
    decreases |s| - from
  {
    if from >= |s| then None
    else if AttemptAt(p, s, from).Some? then Some(from)
    else FirstMatch(p, s, from + 1)
  }

  /** `s.match(pattern)`: the captures of the leftmost match. */
  function Search(p: Pattern, s: string): (r: Option<DateMatch>)
    ensures r.None? <==> forall i: nat :: AttemptAt(p, s, i).None?
    ensures r.Some? ==> exists i: nat | i < |s| :: r == AttemptAt(p, s, i)
    ensures r.Some? ==> r.value.WellFormed()
  {
    match FirstMatch(p, s, 0)
    case None => None
    case Some(i) => AttemptAt(p, s, i)
  }

  /** The `months` table; a word that is not one of its keys counts as January (`?? 0`). */
  const Months: map<string, nat> := map[
    "jan" := 0, "feb" := 1, "mar" := 2, "apr" := 3, "may" := 4, "jun" := 5,
    "jul" := 6, "aug" := 7, "sep" := 8, "oct" := 9, "nov" := 10, "dec" := 11]

  function MonthIndex(word: string): (r: nat)
    ensures r <= 11
    ensures word !in Months ==> r == 0
  {
    if word in Months then Months[word] else 0
  }

  function DigitValue(c: char): (r: nat)
    requires IsDigit(c)
    ensures r <= 9
  {
    c as int - '0' as int
  }

  /** `parseInt` of the four captured digits. */
  function YearValue(d: string): (r: nat)
    requires |d| == 4 && forall m :: 0 <= m < 4 ==> IsDigit(d[m])
    ensures r <= 9999
  {
    1000 * DigitValue(d[0]) + 100 * DigitValue(d[1]) + 10 * DigitValue(d[2]) + DigitValue(d[3])
  }

  /** The year written as four digits, zero-padded. */
  function YearDigits(y: nat): (d: string)
    requires y <= 9999
    ensures |d| == 4 && forall m :: 0 <= m < 4 ==> IsDigit(d[m])
  {
    [Digit(y / 1000), Digit(y / 100 % 10), Digit(y / 10 % 10), Digit(y % 10)]
  }

  function Digit(n: nat): (c: char)
    requires n <= 9
    ensures IsDigit(c) && DigitValue(c) == n
  {
    ('0' as int + n) as char
  }

  /** Reading back a written year gives the year. */
  lemma YearValueOfDigits(y: nat)
    requires y <= 9999
    ensures YearValue(YearDigits(y)) == y
  {
    var d := YearDigits(y);
    assert y == 10 * (y / 10) + y % 10;
    assert y / 10 == 10 * (y / 100) + y / 10 % 10;
    assert y / 100 == 10 * (y / 1000) + y / 100 % 10;
    assert y / 100 == y / 10 / 10 && y / 1000 == y / 100 / 10;
  }

  /** The date a text carries, if the pattern finds one in its lower-cased form. */
  function DateOf(p: Pattern, text: string): (r: Option<Date>)
    ensures r.Some? ==> r.value.year <= 9999 && r.value.month <= 11
    ensures r.None? <==> Search(p, ToLower(text)).None?
  {
    var lower := ToLower(text);
    match Search(p, lower)
    case None => None
    case Some(m) => Some(Date(YearValue(m.digits), MonthIndex(m.word)))
  }

  /** `text.toLowerCase().includes("present")`. */
  predicate IsPresent(text: string) {
    Contains(ToLower(text), "present")
  }

  /** Months since January of year 0. */
  function DateValue(d: Date): nat {
    d.year * 12 + d.month
  }

  const PresentBonus: nat := 100000

  /** `getSortValue`: 0 for a text without a date; otherwise the date value,
      raised by 100000 for a current position. */
  function SortValue(p: Pattern, text: string): (r: nat)
    ensures DateOf(p, text).None? ==> r == 0
    ensures DateOf(p, text).Some? && IsPresent(text) ==> PresentBonus <= r <= PresentBonus + 119999
    ensures DateOf(p, text).Some? && !IsPresent(text) ==> r <= 119999
  {
    match DateOf(p, text)
    case None => 0
    case Some(d) => if IsPresent(text) then DateValue(d) + PresentBonus else DateValue(d)
  }

  /** Chronological order on dates. */
  predicate Later(a: Date, b: Date) {
    a.year > b.year || (a.year == b.year && a.month > b.month)
  }

  /** Among texts that are equally current, the later start date sorts first:
      the score is higher exactly when the date is later. */
  lemma LaterSortsFirst(p: Pattern, a: string, b: string)
    requires DateOf(p, a).Some? && DateOf(p, b).Some?
    requires IsPresent(a) == IsPresent(b)
    ensures SortValue(p, a) > SortValue(p, b) <==> Later(DateOf(p, a).value, DateOf(p, b).value)
    ensures SortValue(p, a) == SortValue(p, b) <==> DateOf(p, a) == DateOf(p, b)
  {
    var da, db := DateOf(p, a).value, DateOf(p, b).value;
    var bonus := if IsPresent(a) then PresentBonus else 0;
    assert SortValue(p, a) == DateValue(da) + bonus by { SortValueOfDate(p, a); }
    assert SortValue(p, b) == DateValue(db) + bonus by { SortValueOfDate(p, b); }
    ScoreOrder(da, db, bonus);
  }

  /** Raising both scores by the same bonus keeps the date order. */
  lemma ScoreOrder(a: Date, b: Date, bonus: nat)
    requires a.month <= 11 && b.month <= 11
    ensures DateValue(a) + bonus > DateValue(b) + bonus <==> Later(a, b)
    ensures DateValue(a) + bonus == DateValue(b) + bonus <==> a == b
  {
    DateValueOrder(a, b);
    DateValueOrder(b, a);
  }

  lemma SortValueOfDate(p: Pattern, text: string)
    requires DateOf(p, text).Some?
    ensures SortValue(p, text) == DateValue(DateOf(p, text).value) + (if IsPresent(text) then PresentBonus else 0)
  {
  }

  lemma DateValueOrder(a: Date, b: Date)
    requires a.month <= 11 && b.month <= 11
    ensures DateValue(a) > DateValue(b) <==> Later(a, b)
  {
    if a.year > b.year {
      assert a.year * 12 >= b.year * 12 + 12;
    } else if a.year < b.year {
      assert b.year * 12 >= a.year * 12 + 12;
    }
  }

  /** A current position outranks a past dated or undated one as long as the
      past one started at most 8332 years later. */
  lemma PresentSortsFirst(p: Pattern, a: string, b: string)
    requires DateOf(p, a).Some? && IsPresent(a) && !IsPresent(b)
    requires DateOf(p, b).Some? ==> DateOf(p, b).value.year <= DateOf(p, a).value.year + 8332
    ensures SortValue(p, a) > SortValue(p, b)
  {
    if DateOf(p, b).Some? {
      var ya, yb := DateOf(p, a).value.year, DateOf(p, b).value.year;
      assert yb * 12 <= ya * 12 + 8332 * 12;
    }
  }

  /** A text that starts with a word, white space and four digits is dated by
      them under the bare expression. */
  lemma DateAtStart(text: string, j: nat, k: nat)
    requires MatchesAt(ToLower(text), 0, j, k)
    ensures var lower := ToLower(text);
      DateOf(Bare, text) == Some(Date(YearValue(lower[k..k + 4]), MonthIndex(lower[..j])))
  {
    var lower := ToLower(text);
    assert AttemptAt(Bare, lower, 0) == Some(DateMatch(lower[0..j], lower[k..k + 4]));
    assert lower[0..j] == lower[..j];
  }

  /** Under the parenthesised expression the date is the one after the first
      opening parenthesis that is followed by a word, white space and four digits. */
  lemma DateAfterParenthesis(text: string, i: nat, j: nat, k: nat)
    requires var lower := ToLower(text);
      i < |lower| && lower[i] == '(' && MatchesAt(lower, i + 1, j, k)
    requires forall m :: 0 <= m < i ==> text[m] != '('
    ensures var lower := ToLower(text);
      DateOf(Parenthesised, text) == Some(Date(YearValue(lower[k..k + 4]), MonthIndex(lower[i + 1..j])))
  {
    var lower := ToLower(text);
    assert forall m :: 0 <= m < i ==> lower[m] != '(';
    SkipToMatch(Parenthesised, lower, 0, i);
  }

  lemma SkipToMatch(p: Pattern, s: string, from: nat, i: nat)
    requires from <= i && AttemptAt(p, s, i).Some?
    requires forall m: nat :: from <= m < i ==> AttemptAt(p, s, m).None?
    ensures FirstMatch(p, s, from) == Some(i)
  {
    var r := FirstMatch(p, s, from);
    assert r.Some?;
    assert AttemptAt(p, s, r.value).Some?;
  }

  /** A text without a digit has no date, whatever it says about "present". */
  lemma UndatedWithoutDigits(p: Pattern, text: string)
    requires forall m :: 0 <= m < |text| ==> !IsDigit(text[m])
    ensures DateOf(p, text).None? && SortValue(p, text) == 0
  {
    var lower := ToLower(text);
    assert forall m :: 0 <= m < |lower| ==> !IsDigit(lower[m]);
  }

  /** A text without an opening parenthesis has no date under the
      parenthesised expression. */
  lemma UndatedWithoutParenthesis(text: string)
    requires forall m :: 0 <= m < |text| ==> text[m] != '('
    ensures DateOf(Parenthesised, text).None? && SortValue(Parenthesised, text) == 0
  {
    var lower := ToLower(text);
    assert forall m :: 0 <= m < |lower| ==> lower[m] != '(';
  }

  /** Whatever the parenthesised expression dates, the bare one dates too; the
      converse fails (see `PatternsDisagree`). */
  lemma ParenthesisedImpliesBare(text: string)
    requires DateOf(Parenthesised, text).Some?
    ensures DateOf(Bare, text).Some?
  {
    var lower := ToLower(text);
    var i: nat :| i < |lower| && Search(Parenthesised, lower) == AttemptAt(Parenthesised, lower, i);
    assert AttemptAt(Bare, lower, i + 1).Some?;
  }

  predicate IsWord(w: string) {
    w != [] && forall m :: 0 <= m < |w| ==> IsWordChar(w[m])
  }

  predicate IsFourDigits(d: string) {
    |d| == 4 && forall m :: 0 <= m < 4 ==> IsDigit(d[m])
  }

  /** A text that opens with a word, a space and four digits is dated by that
      word and those digits, whatever follows. */
  lemma DateOfLeadingDate(word: string, digits: string, rest: string)
    requires IsWord(word) && IsFourDigits(digits)
    ensures DateOf(Bare, word + " " + digits + rest) == Some(Date(YearValue(digits), MonthIndex(ToLower(word))))
  {
    LeadingDateMatches(word, digits, rest);
    DateAtStart(word + " " + digits + rest, |word|, |word| + 1);
  }

  lemma LeadingDateMatches(word: string, digits: string, rest: string)
    requires IsWord(word) && IsFourDigits(digits)
    ensures var lower, n := ToLower(word + " " + digits + rest), |word|;
      MatchesAt(lower, 0, n, n + 1) && lower[..n] == ToLower(word) && lower[n + 1..n + 5] == digits
  {
    var text := word + " " + digits + rest;
    var lower := ToLower(text);
    var n := |word|;
    assert forall m :: 0 <= m < n ==> text[m] == word[m];
    assert text[n] == ' ';
    assert forall m :: 0 <= m < 4 ==> text[n + 1 + m] == digits[m];
    assert lower[..n] == ToLower(word);
    assert lower[n + 1..n + 5] == digits;
  }

  /** A role that opens with a month and year and has no parenthesis is dated
      on the dashboard and undated on the site, so the two list projects in
      different orders. */
  lemma PatternsDisagree(word: string, digits: string, rest: string)
    requires IsWord(word) && IsFourDigits(digits)
    requires forall m :: 0 <= m < |rest| ==> rest[m] != '('
    ensures DateOf(Bare, word + " " + digits + rest).Some?
    ensures DateOf(Parenthesised, word + " " + digits + rest).None?
  {
    DateOfLeadingDate(word, digits, rest);
    var text := word + " " + digits + rest;
    forall m | 0 <= m < |text| ensures text[m] != '(' {
      if m < |word| {
        assert text[m] == word[m];
      } else if m == |word| {
        assert text[m] == ' ';
      } else if m < |word| + 5 {
        assert text[m] == digits[m - |word| - 1];
      } else {
        assert text[m] == rest[m - |word| - 5];
      }
    }
    UndatedWithoutParenthesis(text);
  }

  /** The month must be the whole word: a leading word that is not one of
      the twelve keys ("March", "Since") counts as January. */
  lemma NonMonthWordIsJanuary(word: string, digits: string, rest: string)
    requires IsWord(word) && IsFourDigits(digits) && ToLower(word) !in Months
    ensures DateOf(Bare, word + " " + digits + rest) == Some(Date(YearValue(digits), 0))
  {
    DateOfLeadingDate(word, digits, rest);
  }

  lemma MarchIsJanuary(digits: string, rest: string)
    requires IsFourDigits(digits)
    ensures DateOf(Bare, "March" + " " + digits + rest) == Some(Date(YearValue(digits), 0))
  {
    assert ToLower("March") == "march";
    NonMonthWordIsJanuary("March", digits, rest);
  }

  /** Under the parenthesised expression a text whose only opening
      parenthesis is not directly followed by a word, white space and four
      digits has no date: "creator (since jul 2024)" is undated. */
  lemma UndatedWhenParenthesisFails(text: string, i: nat)
    requires i < |text| && text[i] == '('
    requires forall m :: 0 <= m < |text| && m != i ==> text[m] != '('
    requires TryAt(ToLower(text), i + 1).None?
    ensures DateOf(Parenthesised, text).None?
  {
    var lower := ToLower(text);
    assert forall m :: 0 <= m < |lower| && m != i ==> lower[m] != '(' by {
      forall m | 0 <= m < |lower| && m != i ensures lower[m] != '(' {
        assert lower[m] == LowerChar(text[m]);
      }
    }
    OnlyAttemptFails(lower, i);
  }

  lemma OnlyAttemptFails(s: string, i: nat)
    requires forall m :: 0 <= m < |s| && m != i ==> s[m] != '('
    requires TryAt(s, i + 1).None?
    ensures Search(Parenthesised, s).None?
  {
    forall m: nat ensures AttemptAt(Parenthesised, s, m).None? {
      if m != i {
        assert m < |s| ==> s[m] != '(';
      }
    }
  }

  /** The 8332-year bound in `PresentSortsFirst` cannot be raised: a current
      position from year 0 sorts below a past one from December 8333. */
  lemma PresentBoundIsTight(p: Pattern, a: string, b: string)
    requires DateOf(p, a) == Some(Date(0, 0)) && IsPresent(a)
    requires DateOf(p, b) == Some(Date(8333, 11)) && !IsPresent(b)
    ensures SortValue(p, b) > SortValue(p, a)
  {
  }
}
