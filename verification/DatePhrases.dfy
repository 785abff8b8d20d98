/** How the travel agent reads a date out of a message, and which dates the provider will search. */
module DatePhrases {
  import opened Common
  import opened Calendar
  import opened Lists
  import Text

  // ---- Reading characters ----------------------------------------------------------------

  predicate IsDigit(c: char) { '0' <= c <= '9' }

  predicate IsLetter(c: char) { 'a' <= c <= 'z' }

  /** `\w`; a boundary `\b` lies between a word character and anything else. */
  predicate IsWordChar(c: char) {
    IsDigit(c) || IsLetter(c) || 'A' <= c <= 'Z' || c == '_'
  }

  predicate Boundary(s: string, i: nat)
    requires i <= |s|
  {
    (i > 0 && IsWordChar(s[i - 1])) != (i < |s| && IsWordChar(s[i]))
  }

  datatype CharClass = Digits | Letters | Spaces

  predicate InClass(c: char, cls: CharClass) {
    match cls
    case Digits => IsDigit(c)
    case Letters => IsLetter(c)
    case Spaces => Text.IsSpace(c)
  }

  /** How many characters of the class follow, as a greedy repetition would take them. */
  function Span(s: string, i: nat, cls: CharClass): (n: nat)
    requires i <= |s|
    ensures i + n <= |s|
    ensures forall k :: i <= k < i + n ==> InClass(s[k], cls)
    decreases |s| - i
  {
    if i < |s| && InClass(s[i], cls) then 1 + Span(s, i + 1, cls) else 0
  }

  predicate At(s: string, i: nat, word: string) {
    i + |word| <= |s| && s[i..i + |word|] == word
  }

  function DigitValue(c: char): (n: nat)
    requires IsDigit(c)
    ensures n <= 9
  {
    (c - '0') as nat
  }

  function ToNat(s: string): nat
    requires forall i :: 0 <= i < |s| ==> IsDigit(s[i])
  {
    if s == [] then 0 else ToNat(s[..|s| - 1]) * 10 + DigitValue(s[|s| - 1])
  }

  // ---- The patterns ------------------------------------------------------------------------

  /** `\d{4}-\d{2}-\d{2}` */
  predicate IsoShape(s: string) {
    && |s| == 10 && s[4] == '-' && s[7] == '-'
    && forall i :: 0 <= i < 10 && i != 4 && i != 7 ==> IsDigit(s[i])
  }

  /** The first `\b(\d{4}-\d{2}-\d{2})\b` from position i on. */
  function FirstIso(s: string, i: nat): Option<string>
    requires i <= |s|
    decreases |s| - i
  {
    if i + 10 > |s| then None
    else if IsoShape(s[i..i + 10]) && Boundary(s, i) && Boundary(s, i + 10) then Some(s[i..i + 10])
    else FirstIso(s, i + 1)
  }

  /** `\btomorrow\b` */
  predicate HasTomorrow(s: string) {
    exists i :: 0 <= i <= |s| && At(s, i, "tomorrow") && Boundary(s, i) && Boundary(s, i + 8)
  }

  const WEEKDAYS := ["sun", "mon", "tue", "wed", "thu", "fri", "sat"]
  const MONTHS := ["jan", "feb", "mar", "apr", "may", "jun", "jul", "aug", "sep", "oct", "nov", "dec"]

  /** The first `\bnext\s+(sun|mon|tue|wed|thu|fri|sat)`. */
  function FirstNextWeekday(s: string, i: nat): (r: Option<nat>)
    requires i <= |s|
    ensures r.Some? ==> r.value < 7
    decreases |s| - i
  {
    if i + 4 > |s| then None
    else
      var j := i + 4 + Span(s, i + 4, Spaces);
      if At(s, i, "next") && Boundary(s, i) && j > i + 4 && j + 3 <= |s| && IndexOf(WEEKDAYS, s[j..j + 3]) < 7
      then Some(IndexOf(WEEKDAYS, s[j..j + 3]))
      else FirstNextWeekday(s, i + 1)
  }

  datatype DayMonth = DayMonth(day: nat, month: string)

  predicate OrdinalSuffix(s: string, i: nat) {
    At(s, i, "st") || At(s, i, "nd") || At(s, i, "rd") || At(s, i, "th")
  }

  /** `\b(\d{1,2})(?:st|nd|rd|th)?\s+([a-z]{3,9})\b` at position i. */
  function DayFirstAt(s: string, i: nat): (r: Option<DayMonth>)
    requires i <= |s|
    ensures r.Some? ==> |r.value.month| >= 3
  {
    var d := Span(s, i, Digits);
    var j := if OrdinalSuffix(s, i + d) then i + d + 2 else i + d;
    var k := j + Span(s, j, Spaces);
    var n := Span(s, k, Letters);
    if Boundary(s, i) && 1 <= d <= 2 && k > j && 3 <= n <= 9 && Boundary(s, k + n)
    then Some(DayMonth(ToNat(s[i..i + d]), s[k..k + n])) else None
  }

  /** `\b([a-z]{3,9})\s+(\d{1,2})(?:st|nd|rd|th)?\b` at position i. */
  function MonthFirstAt(s: string, i: nat): (r: Option<DayMonth>)
    requires i <= |s|
    ensures r.Some? ==> |r.value.month| >= 3
  {
    var n := Span(s, i, Letters);
    var k := i + n + Span(s, i + n, Spaces);
    var d := Span(s, k, Digits);
    if Boundary(s, i) && 3 <= n <= 9 && k > i + n && 1 <= d <= 2
       && (Boundary(s, k + d) || (OrdinalSuffix(s, k + d) && Boundary(s, k + d + 2)))
    then Some(DayMonth(ToNat(s[k..k + d]), s[i..i + n])) else None
  }

  function FirstDayFirst(s: string, i: nat): (r: Option<DayMonth>)
    requires i <= |s|
    ensures r.Some? ==> |r.value.month| >= 3
    decreases |s| - i
  {
    if DayFirstAt(s, i).Some? then DayFirstAt(s, i) else if i < |s| then FirstDayFirst(s, i + 1) else None
  }

  function FirstMonthFirst(s: string, i: nat): (r: Option<DayMonth>)
    requires i <= |s|
    ensures r.Some? ==> |r.value.month| >= 3
    decreases |s| - i
  {
    if MonthFirstAt(s, i).Some? then MonthFirstAt(s, i) else if i < |s| then FirstMonthFirst(s, i + 1) else None
  }

  /** The first `\b(20\d{2})\b`. */
  function FirstYear(s: string, i: nat): (r: Option<nat>)
    requires i <= |s|
    ensures r.Some? ==> 2000 <= r.value <= 2099
    decreases |s| - i
  {
    if i + 4 > |s| then None
    else if At(s, i, "20") && Span(s, i, Digits) >= 4 && Boundary(s, i) && Boundary(s, i + 4)
    then Some(2000 + DigitValue(s[i + 2]) * 10 + DigitValue(s[i + 3]))
    else FirstYear(s, i + 1)
  }

  /** What the message says about a date; only the first pattern that matches counts. */
  datatype Phrase =
    | IsoDay(iso: string)
    | Tomorrow
    | NextWeekday(target: nat)
    | MonthDay(day: nat, month: nat, year: Option<nat>)
    | NoDate

  function ReadPhrase(text: string): Phrase {
    match FirstIso(text, 0)
    case Some(iso) => IsoDay(iso)
    case None =>
      var lower := Text.Lower(text);
      if HasTomorrow(lower) then Tomorrow
      else match FirstNextWeekday(lower, 0)
        case Some(target) => NextWeekday(target)
        case None =>
          var parts := if FirstDayFirst(lower, 0).Some? then FirstDayFirst(lower, 0) else FirstMonthFirst(lower, 0);
          if parts.None? then NoDate
          else
            var month := IndexOf(MONTHS, parts.value.month[..3]);
            if month < 12 && 1 <= parts.value.day <= 31 then MonthDay(parts.value.day, month, FirstYear(lower, 0)) else NoDate
  }

  // ---- From phrase to day --------------------------------------------------------------------

  /** 1 to 7 days to the next such weekday. */
  function DaysAhead(target: nat, today: int): int {
    var d := (target - WeekDay(today) + 7) % 7;
    if d == 0 then 7 else d
  }

  /** The month day in the given year, or a year later if it has passed. */
  function MonthDayFrom(year: int, month: nat, day: nat, today: int): int {
    var candidate := DateUTC(year, month, day);
    if candidate < DateUTC(YearOf(today), MonthOf(today), DateOf(today)) then WithFullYear(candidate, year + 1) else candidate
  }

  function DayNamed(p: Phrase, today: int): int
    requires p.Tomorrow? || p.NextWeekday? || p.MonthDay?
  {
    match p
    case Tomorrow => WithDate(today, DateOf(today) + 1)
    case NextWeekday(target) => WithDate(today, DateOf(today) + DaysAhead(target, today))
    case MonthDay(day, month, year) => MonthDayFrom(if year.Some? then year.value else YearOf(today), month, day, today)
  }

  function Digit(n: int): char
    requires 0 <= n <= 9
  {
    '0' + n as char
  }

  function Pad(n: nat, width: nat): (s: string)
    ensures |s| == width && forall i :: 0 <= i < width ==> IsDigit(s[i])
  {
    if width == 0 then "" else Pad(n / 10, width - 1) + [Digit(n % 10)]
  }

  function YearText(y: int): string {
    if 0 <= y <= 9999 then Pad(y, 4) else if y < 0 then "-" + Pad(-y, 6) else "+" + Pad(y, 6)
  }

  /** `toISOString().slice(0, 10)` */
  function IsoDate(day: int): string {
    (YearText(YearOf(day)) + "-" + Pad(MonthOf(day) + 1, 2) + "-" + Pad(DateOf(day), 2))[..10]
  }

  function ExtractDate(text: string, today: int): Option<string> {
    match ReadPhrase(text)
    case IsoDay(iso) => Some(iso)
    case NoDate => None
    case p => Some(IsoDate(DayNamed(p, today)))
  }

  /** The same, step by step on a mutable date. */
  method ExtractDateInPlace(text: string, today: UtcDate) returns (r: Option<string>)
    ensures today.day == old(today.day)
    ensures r == ExtractDate(text, today.day)
  {
    hide IsoDate, FirstIso, HasTomorrow, FirstNextWeekday, FirstDayFirst, FirstMonthFirst, FirstYear, IndexOf,
      WithDate, WithFullYear, MakeDay, DateUTC, YearOf, MonthOf, DateOf, WeekDay;
    var explicit := FirstIso(text, 0);
    if explicit.Some? {
      return explicit;
    }
    var lower := Text.Lower(text);
    if HasTomorrow(lower) {
      var d := new UtcDate(today.day);
      d.SetUTCDate(DateOf(d.day) + 1);
      return Some(IsoDate(d.day));
    }
    var weekday := FirstNextWeekday(lower, 0);
    if weekday.Some? {
      var d := new UtcDate(today.day);
      var delta := (weekday.value - WeekDay(d.day) + 7) % 7;
      if delta == 0 {
        delta := 7;
      }
      d.SetUTCDate(DateOf(d.day) + delta);
      return Some(IsoDate(d.day));
    }
    var parts := FirstDayFirst(lower, 0);
    if parts.None? {
      parts := FirstMonthFirst(lower, 0);
    }
    if parts.Some? {
      var month := IndexOf(MONTHS, parts.value.month[..3]);
      if month < 12 && 1 <= parts.value.day <= 31 {
        var named := FirstYear(lower, 0);
        var year := if named.Some? then named.value else YearOf(today.day);
        var candidate := new UtcDate(DateUTC(year, month, parts.value.day));
        if candidate.day < DateUTC(YearOf(today.day), MonthOf(today.day), DateOf(today.day)) {
          candidate.SetUTCFullYear(year + 1);
        }
        return Some(IsoDate(candidate.day));
      }
    }
    r := None;
  }

  // ---- The provider's window -------------------------------------------------------------------

  /** `Date.parse` of the date at midnight UTC; a date that does not exist is not a number. */
  function ParseIso(value: string): Option<int> {
    if !IsoShape(value) then None
    else
      var year, month, date := ToNat(value[..4]), ToNat(value[5..7]), ToNat(value[8..]);
      if IsDate(year, month - 1, date) then Some(MakeDay(year, month - 1, date)) else None
  }

  predicate IsSearchableDate(value: string, today: int) {
    var requested := ParseIso(value);
    var todayUtc := DateUTC(YearOf(today), MonthOf(today), DateOf(today));
    requested.Some? && todayUtc <= requested.value <= todayUtc + 365
  }

  // ---- Printing and parsing -----------------------------------------------------------------------

  function Pow10(w: nat): nat {
    if w == 0 then 1 else 10 * Pow10(w - 1)
  }

  lemma {:induction false} PadParses(n: nat, width: nat)
    requires n < Pow10(width)
    ensures ToNat(Pad(n, width)) == n
  {
    if width > 0 {
      PadParses(n / 10, width - 1);
      assert Pad(n, width)[..width - 1] == Pad(n / 10, width - 1);
    }
  }

  /** A printed day is read back as the same day, for every day of a four-digit year. */
  lemma PrintedDayParses(day: int)
    requires 0 <= YearOf(day) <= 9999
    ensures IsoShape(IsoDate(day)) && ParseIso(IsoDate(day)) == Some(day)
  {
    hide MakeDay, YearOf, MonthOf, DateOf, IsDate, Pad, ToNat;
    var y, m, d := YearOf(day), MonthOf(day) + 1, DateOf(day);
    PartsMakeTheDay(day);
    assert Pow10(4) == 10000 && Pow10(2) == 100;
    PadParses(y, 4);
    PadParses(m, 2);
    PadParses(d, 2);
    var s := IsoDate(day);
    assert s == Pad(y, 4) + "-" + Pad(m, 2) + "-" + Pad(d, 2);
    assert s[..4] == Pad(y, 4) && s[5..7] == Pad(m, 2) && s[8..] == Pad(d, 2);
  }

  /** `Date.UTC` takes the years 0 to 99 for 1900 to 1999. */
  predicate IsWholeYear(year: int) {
    !(0 <= year <= 99)
  }

  lemma TodayIsItself(today: int)
    requires IsWholeYear(YearOf(today))
    ensures DateUTC(YearOf(today), MonthOf(today), DateOf(today)) == today
  {
    PartsMakeTheDay(today);
  }

  // ---- Yearless phrases fall in the provider's window ------------------------------------------------

  /** A bare month day, past the end of the month or not, is at most a year ahead. */
  lemma MonthDayIsWithinAYear(month: nat, day: nat, today: int)
    requires month < 12 && 1 <= day <= 31 && IsWholeYear(YearOf(today))
    ensures var n := MonthDayFrom(YearOf(today), month, day, today);
            today <= n <= today + 365 && YearOf(today) <= YearOf(n) <= YearOf(today) + 1
  {
    hide YearOf, MonthOf, DateOf, DayFromYear, DaysBefore, IsLeap;
    var year := YearOf(today);
    var candidate := DateUTC(year, month, day);
    TodayIsItself(today);
    OverflowStaysInYear(year, month, day);
    SameYearIsClose(candidate, today);
    if candidate < today {
      SameDateNextYear(candidate);
      LaterYearIsLater(today, WithFullYear(candidate, year + 1));
    }
  }

  lemma SameYearIsClose(day: int, day': int)
    requires YearOf(day) == YearOf(day')
    ensures -365 <= day - day' <= 365
  {
    hide DayFromYear;
    YearLength(YearOf(day));
  }

  lemma LaterYearIsLater(day: int, day': int)
    requires YearOf(day) < YearOf(day')
    ensures day < day'
  {
    hide DayFromYear;
    YearsIncrease(YearOf(day) + 1, YearOf(day'));
  }

  /** Every phrase without an ISO date or a year names a day from today to a year ahead. */
  lemma YearlessPhraseIsNear(p: Phrase, today: int)
    requires p.Tomorrow? || p.NextWeekday? || p.MonthDay?
    requires p.NextWeekday? ==> p.target < 7
    requires p.MonthDay? ==> p.month < 12 && 1 <= p.day <= 31 && p.year.None?
    requires p.MonthDay? ==> IsWholeYear(YearOf(today))
    ensures today <= DayNamed(p, today) <= today + 365
    ensures YearOf(DayNamed(p, today)) <= YearOf(today) + 1
  {
    hide YearOf, DateOf, WithDate, MonthDayFrom, DaysAhead;
    match p
    case Tomorrow =>
      AddingDays(today, 1);
      NearDayIsNextYearAtMost(today, today + 1);
    case NextWeekday(target) =>
      assert 1 <= DaysAhead(target, today) <= 7 by { DaysAheadRange(target, today); }
      AddingDays(today, DaysAhead(target, today));
      NearDayIsNextYearAtMost(today, today + DaysAhead(target, today));
    case MonthDay(day, month, _) => MonthDayIsWithinAYear(month, day, today);
  }

  lemma DaysAheadRange(target: nat, today: int)
    requires target < 7
    ensures 1 <= DaysAhead(target, today) <= 7
    ensures WeekDay(today + DaysAhead(target, today)) == target
  {
    hide WeekDay;
    WeekDayMovesOn(today, DaysAhead(target, today));
  }

  lemma WeekDayMovesOn(day: int, k: int)
    requires 0 <= k <= 7
    ensures WeekDay(day + k) == if WeekDay(day) + k < 7 then WeekDay(day) + k else WeekDay(day) + k - 7
  {
  }

  lemma NoEarlierWeekday(target: nat, today: int, day: int)
    requires target < 7 && today < day < today + DaysAhead(target, today)
    ensures WeekDay(day) != target
  {
    WeekDayMovesOn(today, day - today);
  }

  lemma NearDayIsNextYearAtMost(day: int, day': int)
    requires day <= day' <= day + 365
    ensures YearOf(day') <= YearOf(day) + 1
  {
    hide DayFromYear;
    if YearOf(day') > YearOf(day) + 1 {
      YearsIncrease(YearOf(day) + 1, YearOf(day'));
    }
  }

  lemma PhraseIsInRange(text: string)
    ensures var p := ReadPhrase(text);
            (p.NextWeekday? ==> p.target < 7) && (p.MonthDay? ==> p.month < 12 && 1 <= p.day <= 31)
  {
  }

  /** Whatever the message, if it names no ISO date and no year and a date is read out of it, the provider searches
      that date today exactly when it is printed with a four-digit year: through day overflow, leap days and the roll
      to next year. */
  lemma YearlessDateIsSearchableIff(text: string, today: int)
    requires IsWholeYear(YearOf(today))
    requires var p := ReadPhrase(text);
             !p.IsoDay? && (p.MonthDay? ==> p.year.None?)
    requires ExtractDate(text, today).Some?
    ensures var n := DayNamed(ReadPhrase(text), today);
            && (IsSearchableDate(ExtractDate(text, today).value, today) <==> 0 <= YearOf(n) <= 9999)
            && (0 <= YearOf(n) <= 9999 ==> ParseIso(ExtractDate(text, today).value) == Some(n))
            && YearOf(today) <= YearOf(n) <= YearOf(today) + 1
  {
    hide ReadPhrase, YearOf, IsoDate, DayNamed, ParseIso, DateUTC, IsWholeYear;
    PhraseIsInRange(text);
    var n := DayNamed(ReadPhrase(text), today);
    YearlessPhraseIsNear(ReadPhrase(text), today);
    assert YearOf(n) >= YearOf(today) by {
      if YearOf(n) < YearOf(today) {
        LaterYearIsLater(n, today);
      }
    }
    if 0 <= YearOf(n) <= 9999 {
      PrintedDayParses(n);
    } else {
      OtherYearsHaveASign(n);
    }
    TodayIsItself(today);
  }

  lemma OtherYearsHaveASign(day: int)
    requires !(0 <= YearOf(day) <= 9999)
    ensures !IsoShape(IsoDate(day)) && ParseIso(IsoDate(day)) == None
  {
    hide YearOf, MonthOf, DateOf, MakeDay, IsDate, ToNat;
    assert IsoDate(day)[0] in ['-', '+'];
  }

  /** "next friday" is the first such weekday after today, 1 to 7 days ahead. */
  lemma NextWeekdayIsTheNextOne(target: nat, today: int)
    requires target < 7
    ensures var n := DayNamed(NextWeekday(target), today);
            && today < n <= today + 7
            && WeekDay(n) == target
            && forall k :: today < k < n ==> WeekDay(k) != target
  {
    hide WithDate, DateOf, DaysAhead, WeekDay;
    DaysAheadRange(target, today);
    AddingDays(today, DaysAhead(target, today));
    forall k | today < k < today + DaysAhead(target, today) ensures WeekDay(k) != target {
      NoEarlierWeekday(target, today, k);
    }
  }

  /** A month day that exists every year is the first such day from today on. */
  lemma MonthDayIsTheNextOne(month: nat, day: nat, today: int)
    requires month < 12 && 1 <= day <= DaysInMonth(false, month) && IsWholeYear(YearOf(today))
    ensures var n := MonthDayFrom(YearOf(today), month, day, today);
            && MonthOf(n) == month && DateOf(n) == day
            && forall k :: today <= k < n ==> !(MonthOf(k) == month && DateOf(k) == day)
  {
    hide YearOf, MonthOf, DateOf, DayFromYear, DaysBefore;
    var year := YearOf(today);
    var n := MonthDayFrom(year, month, day, today);
    LongerFebruary(month);
    TodayIsItself(today);
    DateHasItsParts(year, month, day);
    DateHasItsParts(year + 1, month, day);
    assert n == MakeDay(year, month, day) || n == MakeDay(year + 1, month, day);
    forall k | today <= k < n ensures !(MonthOf(k) == month && DateOf(k) == day) {
      PartsMakeTheDay(k);
      if YearOf(k) > year + 1 {
        LaterYearIsLater(n, k);
      } else if YearOf(k) < year {
        LaterYearIsLater(k, today);
      }
    }
  }

  lemma LongerFebruary(month: nat)
    requires month < 12
    ensures DaysInMonth(false, month) <= DaysInMonth(true, month)
  {
  }

  /** With a year in the message the same promise fails: the roll is a single year, so the date is
      searchable exactly when the year is this one, or next year's day is at most 365 days away, or
      last year's day, rolled once, has not passed. */
  lemma YearfulDateIsSearchableIff(month: nat, day: nat, year: nat, today: int)
    requires month < 12 && 1 <= day <= 31 && 2000 <= year <= 2099 && IsWholeYear(YearOf(today))
    ensures var n := DayNamed(MonthDay(day, month, Some(year)), today);
            IsSearchableDate(IsoDate(n), today) <==>
              || year == YearOf(today)
              || (year == YearOf(today) + 1 && MakeDay(year, month, day) <= today + 365)
              || (year == YearOf(today) - 1 && WithFullYear(MakeDay(year, month, day), year + 1) >= today)
  {
    hide YearOf, MonthOf, DateOf, DayFromYear, DaysBefore, IsLeap, MakeDay, ParseIso, IsoDate;
    var candidate := MakeDay(year, month, day);
    var n := DayNamed(MonthDay(day, month, Some(year)), today);
    TodayIsItself(today);
    OverflowStaysInYear(year, month, day);
    SameDateNextYear(candidate);
    PrintedDayParses(n);
    if year == YearOf(today) {
      MonthDayIsWithinAYear(month, day, today);
    } else if year < YearOf(today) {
      LaterYearIsLater(candidate, today);
      if year < YearOf(today) - 1 {
        LaterYearIsLater(n, today);
      } else {
        SameYearIsClose(n, today);
      }
    } else {
      LaterYearIsLater(today, candidate);
      if year > YearOf(today) + 1 {
        if candidate <= today + 365 {
          NearDayIsNextYearAtMost(today, candidate);
        }
      }
    }
  }
}
