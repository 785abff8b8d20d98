/** From the words of a message to the day: what the date phrases of `DatePhrases` are, spelled out. */
module DateTexts {
  import opened Common
  import opened Calendar
  import opened DatePhrases
  import opened Lists
  import Text

  // ---- Explicit dates and tomorrow -----------------------------------------------------------------

  /** A date stands at position i, apart from other words and numbers. */
  predicate IsoAt(s: string, i: nat) {
    i + 10 <= |s| && IsoShape(s[i..i + 10]) && Boundary(s, i) && Boundary(s, i + 10)
  }

  ghost predicate HasIso(s: string) {
    exists i: nat :: IsoAt(s, i)
  }

  lemma {:induction false} FirstIsoIs(s: string, i: nat)
    requires i <= |s|
    ensures match FirstIso(s, i)
            case Some(iso) => exists k: nat :: i <= k && IsoAt(s, k) && iso == s[k..k + 10] && forall j: nat :: i <= j < k ==> !IsoAt(s, j)
            case None => forall k: nat :: i <= k ==> !IsoAt(s, k)
    decreases |s| - i
  {
    hide IsoShape, Boundary;
    if i + 10 <= |s| && !IsoAt(s, i) {
      FirstIsoIs(s, i + 1);
      if FirstIso(s, i + 1).Some? {
        var k: nat :| i + 1 <= k && IsoAt(s, k) && FirstIso(s, i + 1).value == s[k..k + 10] && forall j: nat :: i + 1 <= j < k ==> !IsoAt(s, j);
        assert forall j: nat :: i <= j < k ==> !IsoAt(s, j);
      }
    } else if i + 10 <= |s| {
      assert IsoAt(s, i);
    }
  }

  /** The first explicit date of a message is read as it stands, whatever else is said. */
  lemma ExplicitDateIsRead(text: string, today: int, i: nat)
    requires IsoAt(text, i) && forall j: nat :: j < i ==> !IsoAt(text, j)
    ensures ExtractDate(text, today) == Some(text[i..i + 10])
  {
    hide IsoAt;
    FirstIsoIs(text, 0);
  }

  lemma NoIsoIsFound(text: string)
    requires !HasIso(text)
    ensures FirstIso(text, 0) == None
  {
    hide IsoAt;
    FirstIsoIs(text, 0);
  }

  /** The word stands apart in the text. */
  predicate Says(s: string, word: string) {
    exists i: nat :: i <= |s| && At(s, i, word) && Boundary(s, i) && Boundary(s, i + |word|)
  }

  /** "tomorrow", in any case and anywhere in a message without an explicit date, is the day after today. */
  lemma TomorrowIsTheNextDay(text: string, today: int)
    requires !HasIso(text) && Says(Text.Lower(text), "tomorrow")
    ensures ExtractDate(text, today) == Some(IsoDate(today + 1))
  {
    hide FirstIso, IsoDate, WithDate, DateOf, HasIso, Text.Lower, Boundary;
    NoIsoIsFound(text);
    AddingDays(today, 1);
    assert HasTomorrow(Text.Lower(text));
  }

  /** A printed day is its year, its month counted from 1 and its date. */
  lemma PrintedDayIs(day: int)
    requires 0 <= YearOf(day) <= 9999
    ensures var s := IsoDate(day);
            && IsoShape(s)
            && ToNat(s[..4]) == YearOf(day) && ToNat(s[5..7]) == MonthOf(day) + 1 && ToNat(s[8..10]) == DateOf(day)
  {
    hide MakeDay, YearOf, MonthOf, DateOf, IsDate, Pad, ToNat;
    var y, m, d := YearOf(day), MonthOf(day) + 1, DateOf(day);
    PartsMakeTheDay(day);
    TwoDigitsSuffice(m, d);
    PadParses(y, 4);
    PadParses(m, 2);
    PadParses(d, 2);
    var s := IsoDate(day);
    assert s == Pad(y, 4) + "-" + Pad(m, 2) + "-" + Pad(d, 2);
    assert s[..4] == Pad(y, 4) && s[5..7] == Pad(m, 2) && s[8..10] == Pad(d, 2);
  }

  lemma TwoDigitsSuffice(m: nat, d: nat)
    requires m <= 12 && d <= 31
    ensures Pow10(4) == 10000 && m < Pow10(2) && d < Pow10(2)
  {
  }

  /** Digits count in tens. */
  lemma DigitsCount(s: string)
    requires |s| == 2 && '0' <= s[0] <= '9' && '0' <= s[1] <= '9'
    ensures ToNat(s) == 10 * (s[0] as int - '0' as int) + (s[1] as int - '0' as int)
  {
    assert s[..1] == [s[0]] && [s[0]][..0] == [];
    assert ToNat([s[0]]) == DigitValue(s[0]);
  }

  // ---- Weekdays -------------------------------------------------------------------------------------

  function WeekdayName(k: nat): string {
    match k
    case 0 => "sun"
    case 1 => "mon"
    case 2 => "tue"
    case 3 => "wed"
    case 4 => "thu"
    case 5 => "fri"
    case _ => "sat"
  }

  /** 16 August 2026 was a Sunday. */
  const SOME_SUNDAY := MakeDay(2026, 7, 16)

  /** "next", white space and the name of the weekday, or a longer word that begins so. */
  predicate NextAt(s: string, i: nat, k: nat) {
    && i + 4 <= |s| && At(s, i, "next") && Boundary(s, i)
    && var j := i + 4 + Span(s, i + 4, Spaces); j > i + 4 && At(s, j, WeekdayName(k))
  }

  lemma WeekdaysAreListed(word: string)
    ensures IndexOf(WEEKDAYS, word) < 7 <==> exists k: nat :: k < 7 && word == WeekdayName(k)
    ensures forall k: nat :: k < 7 && word == WeekdayName(k) ==> IndexOf(WEEKDAYS, word) == k
  {
    assert forall k: nat :: k < 7 ==> WEEKDAYS[k] == WeekdayName(k);
  }

  lemma NextAtIff(s: string, i: nat)
    requires i + 4 <= |s|
    ensures var j := i + 4 + Span(s, i + 4, Spaces);
            (At(s, i, "next") && Boundary(s, i) && j > i + 4 && j + 3 <= |s| && IndexOf(WEEKDAYS, s[j..j + 3]) < 7)
            <==> exists k: nat :: k < 7 && NextAt(s, i, k)
    ensures forall k: nat :: k < 7 && NextAt(s, i, k) ==>
              var j := i + 4 + Span(s, i + 4, Spaces); j + 3 <= |s| && IndexOf(WEEKDAYS, s[j..j + 3]) == k
  {
    hide Boundary, IndexOf, Span;
    var j := i + 4 + Span(s, i + 4, Spaces);
    if j + 3 <= |s| {
      WeekdaysAreListed(s[j..j + 3]);
      if IndexOf(WEEKDAYS, s[j..j + 3]) < 7 && At(s, i, "next") && Boundary(s, i) && j > i + 4 {
        var k: nat :| k < 7 && s[j..j + 3] == WeekdayName(k);
        assert NextAt(s, i, k);
      }
    }
  }

  /** The first "next <weekday>" of the text, from position i on. */
  lemma {:induction false} FirstNextIs(s: string, i: nat, at: nat, k: nat)
    requires i <= at && k < 7 && NextAt(s, at, k)
    requires forall j: nat, l: nat :: i <= j < at && l < 7 ==> !NextAt(s, j, l)
    ensures FirstNextWeekday(s, i) == Some(k)
    decreases at - i
  {
    hide NextAt, Boundary, Span, IndexOf;
    assert at + 4 <= |s| by { NextFits(s, at, k); }
    NextAtIff(s, i);
    if i < at {
      FirstNextIs(s, i + 1, at, k);
    }
  }

  lemma NextFits(s: string, i: nat, k: nat)
    requires NextAt(s, i, k)
    ensures i + 4 <= |s|
  {
  }

  lemma {:induction false} NoNextIs(s: string, i: nat)
    requires i <= |s| && forall j: nat, l: nat :: i <= j && l < 7 ==> !NextAt(s, j, l)
    ensures FirstNextWeekday(s, i) == None
    decreases |s| - i
  {
    hide NextAt, Boundary, Span, IndexOf;
    if i + 4 <= |s| {
      NextAtIff(s, i);
      NoNextIs(s, i + 1);
    }
  }

  /** "next" and the name of a weekday, the first such words of a message without an explicit date or "tomorrow": the
      first day after today that is whole weeks from that weekday. */
  lemma NextWeekdayIsRead(text: string, today: int, at: nat, k: nat)
    requires !HasIso(text) && !Says(Text.Lower(text), "tomorrow")
    requires k < 7 && NextAt(Text.Lower(text), at, k)
    requires forall j: nat, l: nat :: j < at && l < 7 ==> !NextAt(Text.Lower(text), j, l)
    ensures var n := DayNamed(NextWeekday(k), today);
            && ExtractDate(text, today) == Some(IsoDate(n))
            && today < n <= today + 7 && (n - SOME_SUNDAY) % 7 == k
  {
    hide FirstIso, IsoDate, HasIso, Text.Lower, Boundary, NextAt, FirstNextWeekday, DayNamed;
    NoIsoIsFound(text);
    FirstNextIs(Text.Lower(text), 0, at, k);
    NextWeekdayIsTheNextOne(k, today);
    ThatWasASunday(DayNamed(NextWeekday(k), today));
  }

  lemma ThatWasASunday(n: int)
    ensures (n - SOME_SUNDAY) % 7 == WeekDay(n)
  {
    assert SOME_SUNDAY == 20681;
  }

  // ---- Days of a month ----------------------------------------------------------------------------------

  function MonthName(m: nat): string {
    match m
    case 0 => "jan"
    case 1 => "feb"
    case 2 => "mar"
    case 3 => "apr"
    case 4 => "may"
    case 5 => "jun"
    case 6 => "jul"
    case 7 => "aug"
    case 8 => "sep"
    case 9 => "oct"
    case 10 => "nov"
    case _ => "dec"
  }

  /** The second and third letters tell the months apart. */
  function MonthOfLetters(b: char, c: char): nat {
    if b == 'a' then (if c == 'n' then 0 else if c == 'r' then 2 else 4)
    else if b == 'e' then (if c == 'b' then 1 else if c == 'p' then 8 else 11)
    else if b == 'u' then (if c == 'n' then 5 else if c == 'l' then 6 else 7)
    else if b == 'p' then 3 else if b == 'c' then 9 else 10
  }

  lemma MonthLetters(m: nat)
    requires m < 12
    ensures MONTHS[m] == MonthName(m) && |MonthName(m)| == 3 && MonthOfLetters(MonthName(m)[1], MonthName(m)[2]) == m
  {
  }

  lemma MonthsAreListed(m: nat)
    requires m < 12
    ensures IndexOf(MONTHS, MonthName(m)) == m
  {
    hide MonthName, MonthOfLetters;
    MonthLetters(m);
    assert MONTHS[m] == MonthName(m);
    var i := IndexOf(MONTHS, MonthName(m));
    MonthsApart(i, m);
  }

  lemma MonthsApart(i: nat, m: nat)
    requires m < 12 && i < |MONTHS| && MONTHS[i] == MonthName(m)
    ensures i == m
  {
    hide MonthName, MonthOfLetters;
    MonthLetters(m);
    MonthLetters(i);
  }

  predicate AllIn(s: string, cls: CharClass) {
    forall i :: 0 <= i < |s| ==> InClass(s[i], cls)
  }

  lemma {:induction false} SpanIs(s: string, i: nat, n: nat, cls: CharClass)
    requires i + n <= |s| && forall k :: i <= k < i + n ==> InClass(s[k], cls)
    requires i + n == |s| || !InClass(s[i + n], cls)
    ensures Span(s, i, cls) == n
    decreases n
  {
    hide InClass;
    if n > 0 {
      SpanIs(s, i + 1, n - 1, cls);
    }
  }

  predicate Run(s: string, i: nat, j: nat, cls: CharClass) {
    i <= j <= |s| && forall k :: i <= k < j ==> InClass(s[k], cls)
  }

  /** From position i on nothing, or white space and a year from 2000 to 2099. */
  predicate YearTail(s: string, i: nat, g: nat) {
    || i == g == |s|
    || (i < g && Run(s, i, g, Spaces) && Run(s, g, |s|, Digits) && |s| == g + 4 && s[g] == '2' && s[g + 1] == '0')
  }

  function YearAt(s: string, g: nat): Option<nat>
    requires g == |s| || (g + 4 == |s| && IsDigit(s[g + 2]) && IsDigit(s[g + 3]))
  {
    if g == |s| then None else Some(2000 + 10 * DigitValue(s[g + 2]) + DigitValue(s[g + 3]))
  }

  /** A day of one or two digits from i to j, with "st", "nd", "rd", "th" or nothing after it up to x. */
  predicate DayPart(s: string, i: nat, j: nat, x: nat) {
    && i < j <= i + 2 && Run(s, i, j, Digits)
    && (x == j || (x == j + 2 && OrdinalSuffix(s, j)))
  }

  function DayAt(s: string, i: nat, j: nat): nat
    requires i < j <= i + 2 && j <= |s| && forall k :: i <= k < j ==> IsDigit(s[k])
  {
    if j == i + 1 then DigitValue(s[i]) else 10 * DigitValue(s[i]) + DigitValue(s[i + 1])
  }

  /** A word of three to nine letters from i to j that begins like the month. */
  predicate MonthPart(s: string, i: nat, j: nat, m: nat) {
    m < 12 && i + 3 <= j <= i + 9 && Run(s, i, j, Letters) && s[i..i + 3] == MonthName(m)
  }

  /** "15 aug", "1st august 2027" */
  predicate DayThenMonth(s: string, j: nat, x: nat, b: nat, n: nat, g: nat, m: nat) {
    DayPart(s, 0, j, x) && x < b && Run(s, x, b, Spaces) && MonthPart(s, b, n, m) && YearTail(s, n, g)
  }

  /** "aug 15", "august 1st 2027" */
  predicate MonthThenDay(s: string, n: nat, b: nat, j: nat, x: nat, g: nat, m: nat) {
    MonthPart(s, 0, n, m) && n < b && Run(s, n, b, Spaces) && DayPart(s, b, j, x) && YearTail(s, x, g)
  }

  lemma SuffixIsLetters(s: string, j: nat)
    requires OrdinalSuffix(s, j)
    ensures j + 2 <= |s| && IsLetter(s[j]) && IsLetter(s[j + 1])
  {
    assert s[j] == s[j..j + 2][0] && s[j + 1] == s[j..j + 2][1];
  }

  lemma SuffixIffLetters(s: string, j: nat)
    ensures j < |s| && !IsLetter(s[j]) ==> !OrdinalSuffix(s, j)
    ensures j >= |s| ==> !OrdinalSuffix(s, j)
  {
    if j < |s| && OrdinalSuffix(s, j) {
      SuffixIsLetters(s, j);
    }
  }

  lemma ClassesApart(c: char)
    ensures IsLetter(c) ==> !IsDigit(c) && !Text.IsSpace(c)
    ensures IsDigit(c) ==> !Text.IsSpace(c)
    ensures IsWordChar(c) ==> !Text.IsSpace(c)
  {
  }

  lemma DayIsAt(s: string, i: nat, j: nat, x: nat)
    requires DayPart(s, i, j, x) && x <= |s| && (x == |s| || Text.IsSpace(s[x]))
    ensures Span(s, i, Digits) == j - i && ToNat(s[i..j]) == DayAt(s, i, j)
    ensures x == j ==> !OrdinalSuffix(s, j)
  {
    if x == j + 2 {
      SuffixIsLetters(s, j);
    }
    if x < |s| {
      ClassesApart(s[x]);
    }
    SuffixIffLetters(s, j);
    SpanIs(s, i, j - i, Digits);
    if j == i + 1 {
      assert s[i..j] == [s[i]] && [s[i]][..0] == [];
    } else {
      assert s[i..j] == [s[i], s[i + 1]] && [s[i], s[i + 1]][..1] == [s[i]] && [s[i]][..0] == [];
      assert ToNat([s[i]]) == DigitValue(s[i]);
    }
  }

  lemma DayFirstReads(s: string, j: nat, x: nat, b: nat, n: nat, g: nat, m: nat)
    requires DayThenMonth(s, j, x, b, n, g, m)
    ensures DayFirstAt(s, 0) == Some(DayMonth(DayAt(s, 0, j), s[b..n]))
  {
    hide OrdinalSuffix, ToNat, Text.IsSpace, MonthName;
    assert InClass(s[x], Spaces) && InClass(s[b], Letters);
    DayIsAt(s, 0, j, x);
    ClassesApart(s[b]);
    SpanIs(s, x, b - x, Spaces);
    if n < |s| {
      assert InClass(s[n], Spaces);
      ClassesApart(s[n]);
    }
    SpanIs(s, b, n - b, Letters);
  }

  lemma MonthFirstReads(s: string, n: nat, b: nat, j: nat, x: nat, g: nat, m: nat)
    requires MonthThenDay(s, n, b, j, x, g, m)
    ensures MonthFirstAt(s, 0) == Some(DayMonth(DayAt(s, b, j), s[0..n]))
  {
    hide OrdinalSuffix, ToNat, Text.IsSpace, MonthName;
    if x == j + 2 {
      SuffixIsLetters(s, j);
    }
    if x < |s| {
      assert InClass(s[x], Spaces);
      ClassesApart(s[x]);
    }
    DayIsAt(s, b, j, x);
    assert InClass(s[n], Spaces) && InClass(s[b], Digits);
    ClassesApart(s[n]);
    ClassesApart(s[b]);
    SpanIs(s, 0, n, Letters);
    SpanIs(s, n, b - n, Spaces);
  }

  lemma NoDayBeforeAMonth(s: string, n: nat, b: nat, j: nat, x: nat, g: nat, m: nat, i: nat)
    requires MonthThenDay(s, n, b, j, x, g, m) && i <= |s|
    ensures DayFirstAt(s, i) == None
  {
    hide OrdinalSuffix, ToNat, Text.IsSpace, MonthName;
    if i < |s| && IsDigit(s[i]) && Boundary(s, i) {
      if x == j + 2 {
        SuffixIsLetters(s, j);
        ClassesApart(s[j]);
        ClassesApart(s[j + 1]);
      }
      DigitsStart(s, n, b, j, x, g, m, i);
      if i == b {
        if x < |s| {
          assert InClass(s[x], Spaces);
          ClassesApart(s[x]);
          assert InClass(s[g], Digits);
          ClassesApart(s[g]);
          SpanIs(s, x, g - x, Spaces);
          SpanIs(s, g, 0, Letters);
        } else {
          SpanIs(s, x, 0, Spaces);
        }
        DayIsAt(s, b, j, x);
      } else {
        SpanIs(s, g, 4, Digits);
      }
    }
  }

  /** Where a number starts in such a text. */
  lemma DigitsStart(s: string, n: nat, b: nat, j: nat, x: nat, g: nat, m: nat, i: nat)
    requires MonthThenDay(s, n, b, j, x, g, m) && i < |s| && IsDigit(s[i]) && Boundary(s, i)
    ensures i == b || (i == g && g < |s|)
  {
    hide OrdinalSuffix, ToNat, Text.IsSpace, MonthName;
    ClassesApart(s[i]);
    if x == j + 2 {
      SuffixIsLetters(s, j);
    }
  }

  lemma {:induction false} NoDayFirst(s: string, i: nat)
    requires i <= |s| && forall k: nat :: i <= k <= |s| ==> DayFirstAt(s, k) == None
    ensures FirstDayFirst(s, i) == None
    decreases |s| - i
  {
    hide DayFirstAt;
    if i < |s| {
      NoDayFirst(s, i + 1);
    }
  }

  /** The one word of the text starts at w, like the month. */
  ghost predicate OneWordAt(s: string, w: nat, m: nat) {
    && m < 12 && w + 3 <= |s| && s[w..w + 3] == MonthName(m)
    && (forall i: nat :: i < |s| && IsLetter(s[i]) && Boundary(s, i) ==> i == w)
    && (forall i: nat :: i < |s| ==> InClass(s[i], Letters) || InClass(s[i], Digits) || InClass(s[i], Spaces))
  }

  lemma DayThenMonthWord(s: string, j: nat, x: nat, b: nat, n: nat, g: nat, m: nat)
    requires DayThenMonth(s, j, x, b, n, g, m)
    ensures OneWordAt(s, b, m)
  {
    hide OrdinalSuffix, Text.IsSpace, MonthName;
    if x == j + 2 {
      SuffixIsLetters(s, j);
    }
    forall i: nat | i < |s| ensures InClass(s[i], Letters) || InClass(s[i], Digits) || InClass(s[i], Spaces) {
    }
    forall i: nat | i < |s| && IsLetter(s[i]) && Boundary(s, i) ensures i == b {
      ClassesApart(s[i]);
    }
  }

  lemma MonthThenDayWord(s: string, n: nat, b: nat, j: nat, x: nat, g: nat, m: nat)
    requires MonthThenDay(s, n, b, j, x, g, m)
    ensures OneWordAt(s, 0, m)
  {
    hide OrdinalSuffix, Text.IsSpace, MonthName;
    if x == j + 2 {
      SuffixIsLetters(s, j);
    }
    forall i: nat | i < |s| ensures InClass(s[i], Letters) || InClass(s[i], Digits) || InClass(s[i], Spaces) {
    }
    forall i: nat | i < |s| && IsLetter(s[i]) && Boundary(s, i) ensures i == 0 {
      ClassesApart(s[i]);
    }
  }

  lemma MonthIsNoOtherWord(m: nat)
    requires m < 12
    ensures MonthName(m) != "tom" && MonthName(m) != "nex"
  {
  }

  lemma WordStartsAt(s: string, i: nat, word: string)
    requires At(s, i, word) && |word| >= 3
    ensures i + 3 <= |s| && s[i] == word[0] && s[i..i + 3] == word[..3]
  {
    assert s[i..i + |word|][..3] == s[i..i + 3];
  }

  /** Such a text says nothing but the day. */
  lemma NothingElse(s: string, w: nat, m: nat)
    requires OneWordAt(s, w, m)
    ensures !HasTomorrow(s) && FirstNextWeekday(s, 0) == None
  {
    hide MonthName;
    MonthIsNoOtherWord(m);
    forall i: nat | i <= |s| ensures !(At(s, i, "tomorrow") && Boundary(s, i)) && !(At(s, i, "next") && Boundary(s, i)) {
      if At(s, i, "tomorrow") {
        WordStartsAt(s, i, "tomorrow");
      }
      if At(s, i, "next") {
        WordStartsAt(s, i, "next");
      }
    }
    NoNextIs(s, 0);
  }

  lemma NoDashNoIso(text: string)
    requires forall i: nat :: i < |text| ==>
               var c := Text.Lower(text)[i]; InClass(c, Letters) || InClass(c, Digits) || InClass(c, Spaces)
    ensures !HasIso(text)
  {
    forall i: nat ensures !IsoAt(text, i) {
      if i + 10 <= |text| {
        assert text[i..i + 10][4] == text[i + 4];
        assert Text.Lower(text)[i + 4] != '-';
      }
    }
  }

  // ---- The year -------------------------------------------------------------------------------------------

  lemma {:induction false} NoYearBefore(s: string, i: nat, g: nat)
    requires i <= g <= |s| && forall k: nat :: i <= k < g ==> !FourDigitsAt(s, k)
    requires g + 4 <= |s| || g == |s|
    ensures FirstYear(s, i) == FirstYear(s, g)
    decreases g - i
  {
    hide Boundary, Span, At;
    if i < g {
      FourDigits(s, i);
      NoYearBefore(s, i + 1, g);
    }
  }

  predicate FourDigitsAt(s: string, k: nat) {
    k + 4 <= |s| && IsDigit(s[k]) && IsDigit(s[k + 1]) && IsDigit(s[k + 2]) && IsDigit(s[k + 3])
  }

  lemma FourDigits(s: string, k: nat)
    requires k <= |s|
    ensures Span(s, k, Digits) >= 4 ==> FourDigitsAt(s, k)
  {
  }

  lemma YearIsAt(s: string, i: nat, g: nat)
    requires YearTail(s, i, g) && (i > 0 ==> i <= |s|)
    requires forall k: nat :: k < g ==> !FourDigitsAt(s, k)
    ensures g <= |s| && FirstYear(s, 0) == YearAt(s, g)
  {
    hide Text.IsSpace;
    NoYearBefore(s, 0, g);
    if g < |s| {
      assert InClass(s[g - 1], Spaces);
      ClassesApart(s[g - 1]);
      SpanIs(s, g, 4, Digits);
      assert s[g..g + 2] == "20";
    }
  }

  // ---- The day, read ------------------------------------------------------------------------------------------

  /** The phrase these parts come to. */
  function Spelled(day: nat, m: nat, year: Option<nat>): Phrase {
    if 1 <= day <= 31 then MonthDay(day, m, year) else NoDate
  }

  /** "15 Aug", "1st August 2027", in any case. */
  lemma DayThenMonthIsRead(text: string, j: nat, x: nat, b: nat, n: nat, g: nat, m: nat)
    requires DayThenMonth(Text.Lower(text), j, x, b, n, g, m)
    ensures var s := Text.Lower(text);
            g <= |s| && ReadPhrase(text) == Spelled(DayAt(s, 0, j), m, YearAt(s, g))
  {
    var s := Text.Lower(text);
    hide Text.Lower, Text.IsSpace, OrdinalSuffix, MonthName;
    DayFirstReads(s, j, x, b, n, g, m);
    DayThenMonthWord(s, j, x, b, n, g, m);
    FewDigits(s, j, x, b, n, g, m);
    YearIsAt(s, n, g);
    assert s[b..n][..3] == s[b..b + 3];
    PhraseIs(text, b, m, DayMonth(DayAt(s, 0, j), s[b..n]), g);
  }

  lemma FewDigits(s: string, j: nat, x: nat, b: nat, n: nat, g: nat, m: nat)
    requires DayThenMonth(s, j, x, b, n, g, m)
    ensures forall k: nat :: k < g ==> !FourDigitsAt(s, k)
  {
    hide Text.IsSpace, OrdinalSuffix, MonthName;
    if x == j + 2 {
      SuffixIsLetters(s, j);
    }
    assert InClass(s[x], Spaces);
    forall k: nat | k < g ensures !FourDigitsAt(s, k) {
      if k < |s| {
        ClassesApart(s[k]);
      }
      if x == j {
        ClassesApart(s[x]);
      }
      if g < |s| {
        assert InClass(s[g - 1], Spaces);
        ClassesApart(s[g - 1]);
      }
    }
  }

  lemma PhraseIs(text: string, w: nat, m: nat, parts: DayMonth, g: nat)
    requires var s := Text.Lower(text); OneWordAt(s, w, m) && |parts.month| >= 3 && parts.month[..3] == s[w..w + 3]
    requires var s := Text.Lower(text);
             FirstDayFirst(s, 0) == Some(parts) || (FirstDayFirst(s, 0) == None && FirstMonthFirst(s, 0) == Some(parts))
    requires var s := Text.Lower(text);
             g <= |s| && (g == |s| || (g + 4 == |s| && IsDigit(s[g + 2]) && IsDigit(s[g + 3]))) && FirstYear(s, 0) == YearAt(s, g)
    ensures ReadPhrase(text) == Spelled(parts.day, m, YearAt(Text.Lower(text), g))
  {
    hide Text.Lower, FirstDayFirst, FirstMonthFirst, FirstYear, FirstNextWeekday, FirstIso, HasTomorrow, MonthName, HasIso, IndexOf;
    NothingElse(Text.Lower(text), w, m);
    NoDashNoIso(text);
    NoIsoIsFound(text);
    MonthsAreListed(m);
  }

  /** "Aug 15", "August 1st 2027", in any case. */
  lemma MonthThenDayIsRead(text: string, n: nat, b: nat, j: nat, x: nat, g: nat, m: nat)
    requires MonthThenDay(Text.Lower(text), n, b, j, x, g, m)
    ensures var s := Text.Lower(text);
            g <= |s| && ReadPhrase(text) == Spelled(DayAt(s, b, j), m, YearAt(s, g))
  {
    var s := Text.Lower(text);
    hide Text.Lower, Text.IsSpace, OrdinalSuffix, MonthName, DayFirstAt;
    MonthFirstReads(s, n, b, j, x, g, m);
    forall k: nat | k <= |s| ensures DayFirstAt(s, k) == None {
      NoDayBeforeAMonth(s, n, b, j, x, g, m, k);
    }
    NoDayFirst(s, 0);
    MonthThenDayWord(s, n, b, j, x, g, m);
    FewDigitsToo(s, n, b, j, x, g, m);
    YearIsAt(s, x, g);
    assert s[0..n][..3] == s[0..3];
    PhraseIs(text, 0, m, DayMonth(DayAt(s, b, j), s[0..n]), g);
  }

  lemma FewDigitsToo(s: string, n: nat, b: nat, j: nat, x: nat, g: nat, m: nat)
    requires MonthThenDay(s, n, b, j, x, g, m)
    ensures forall k: nat :: k < g ==> !FourDigitsAt(s, k)
  {
    hide Text.IsSpace, OrdinalSuffix, MonthName;
    if x == j + 2 {
      SuffixIsLetters(s, j);
    }
    forall k: nat | k < g ensures !FourDigitsAt(s, k) {
      if k < |s| {
        ClassesApart(s[k]);
      }
      if x == j && x < |s| {
        assert InClass(s[x], Spaces);
        ClassesApart(s[x]);
      }
      if g < |s| {
        assert InClass(s[g - 1], Spaces);
        ClassesApart(s[g - 1]);
      }
    }
  }

  /** What is printed for a day of a month that was spelled out without a year: the first such day from today on. */
  lemma SpelledDayIsTheNextOne(text: string, today: int, day: nat, m: nat)
    requires ReadPhrase(text) == Spelled(day, m, None)
    requires m < 12 && 1 <= day <= DaysInMonth(false, m) && IsWholeYear(YearOf(today))
    ensures var n := MonthDayFrom(YearOf(today), m, day, today);
            && ExtractDate(text, today) == Some(IsoDate(n))
            && today <= n <= today + 365 && MonthOf(n) == m && DateOf(n) == day
            && forall k :: today <= k < n ==> !(MonthOf(k) == m && DateOf(k) == day)
  {
    hide ReadPhrase, IsoDate, MonthDayFrom, YearOf, MonthOf, DateOf, IsWholeYear;
    MonthDayIsTheNextOne(m, day, today);
    MonthDayIsWithinAYear(m, day, today);
  }

  /** With a year, that very day unless it has passed. */
  lemma SpelledYearIsKept(text: string, today: int, day: nat, m: nat, year: nat)
    requires ReadPhrase(text) == Spelled(day, m, Some(year)) && 2000 <= year
    requires IsDate(year, m, day) && today <= MakeDay(year, m, day) && IsWholeYear(YearOf(today))
    ensures ExtractDate(text, today) == Some(IsoDate(MakeDay(year, m, day)))
    ensures YearOf(MakeDay(year, m, day)) == year && MonthOf(MakeDay(year, m, day)) == m && DateOf(MakeDay(year, m, day)) == day
  {
    hide ReadPhrase, IsoDate, YearOf, MonthOf, DateOf, MakeDay;
    TodayIsItself(today);
    DateHasItsParts(year, m, day);
  }
}
