/** The tappable answers: each one fills the slot it is offered for, with one exception, and tapping them leads to a search. */
module TripSuggestions {
  import opened Common
  import opened DatePhrases
  import opened MessageReading
  import opened TripSlots
  import opened TripAnswers
  import Calendar
  import Text

  function DaysOn(day: int, n: nat): string {
    IsoDate(Calendar.WithDate(day, Calendar.DateOf(day) + n))
  }

  /** The answers offered with a question. Where the departure date is no date, the way home cannot be offered one:
      the handler fails. */
  function Suggestions(slot: Slot, p: TripProfile, today: int): seq<string> {
    match slot
    case Destination => ["Delhi", "Mumbai"]
    case Origin => ["Thiruvananthapuram"]
    case DepartureDate => [DaysOn(today, 14), DaysOn(today, 21)]
    case ReturnDate =>
      if p.departureDate.None? then [DaysOn(today, 5)]
      else if ParseIso(p.departureDate.value).Some? then [DaysOn(ParseIso(p.departureDate.value).value, 5)]
      else []
    case Travelers => ["Just me", "2 travellers", "3 travellers"]
    case Airline => ["Helix Air", "Skyline", "No preference"]
    case Budget => ["Under \U{20B9}5,500", "Around \U{20B9}8,000", "No limit"]
  }

  predicate IsDateSlot(slot: Slot) {
    slot == DepartureDate || slot == ReturnDate
  }

  // ---- One by one -----------------------------------------------------------------------------------------

  /** Given back, the message is read as it is spelled, mentions nothing else and is `lower` in lower case. */
  predicate IsAnswer(message: string, lower: string) {
    message != "" && Text.Trim(message) == message && Text.Lower(message) == lower && IsPlain(message)
  }

  lemma WholeIsWord(s: string)
    requires s != "" && IsWordChar(s[0]) && IsWordChar(s[|s| - 1])
    ensures HasWord(s, s)
  {
    assert At(s, 0, s) && Boundary(s, 0) && Boundary(s, |s|);
  }

  lemma LowerIs(s: string, lower: string)
    requires |s| == |lower| && forall i :: 0 <= i < |s| ==> LowerOf(s[i], lower[i])
    requires s != "" && !Text.IsSpace(s[0]) && !Text.IsSpace(s[|s| - 1])
    ensures Text.Lower(s) == lower && Text.Trim(s) == s
  {
    Text.TrimIsTrimmed(s);
  }

  predicate LowerOf(c: char, lower: char) {
    Text.LowerChar(c) == lower
  }

  /** One word that is none of those that mean something else. */
  lemma OneWordIsPlain(message: string, lower: string)
    requires Text.Lower(message) == lower && OneWord(lower)
    requires lower !in ["hotel", "stay", "accommodation", "room", "lodging", "return"]
    requires lower !in ["book", "reserve", "confirm", "select", "take"]
    ensures IsPlain(message)
  {
    hide HasAnyWord, Text.Lower, OneWord;
    OneWordHasAny(lower, ["hotel", "stay", "accommodation", "room", "lodging"]);
    OneWordHasAny(lower, ["return", "back home", "coming back", "way back"]);
    OneWordHasAny(lower, ["book", "reserve", "confirm", "select", "take"]);
    assert lower !in ["back home", "coming back", "way back"] by { OneWordHasNoBlank(lower); }
  }

  lemma OneWordHasNoBlank(s: string)
    requires OneWord(s)
    ensures s !in ["back home", "coming back", "way back"]
  {
    assert !IsLetter("back home"[4]) && !IsLetter("coming back"[6]) && !IsLetter("way back"[3]);
  }

  lemma Delhi()
    ensures IsAnswer("Delhi", "delhi")
  {
    hide IsPlain, Text.Trim, Text.Lower, HasAnyWord;
    LowerIs("Delhi", "delhi");
    OneWordIsPlain("Delhi", "delhi");
  }

  lemma Mumbai()
    ensures IsAnswer("Mumbai", "mumbai")
  {
    hide IsPlain, Text.Trim, Text.Lower, HasAnyWord;
    LowerIs("Mumbai", "mumbai");
    OneWordIsPlain("Mumbai", "mumbai");
  }

  lemma Thiruvananthapuram()
    ensures IsAnswer("Thiruvananthapuram", "thiruvananthapuram")
  {
    hide IsPlain, Text.Trim, Text.Lower, HasAnyWord;
    LowerIs("Thiruvananthapuram", "thiruvananthapuram");
    OneWordIsPlain("Thiruvananthapuram", "thiruvananthapuram");
  }

  /** The whole text is the k-th word. */
  lemma WholeIsAnyWord(s: string, words: seq<string>, k: nat)
    requires k < |words| && words[k] == s && s != "" && IsWordChar(s[0]) && IsWordChar(s[|s| - 1])
    ensures HasAnyWord(s, words)
  {
    WholeIsWord(s);
  }

  lemma JustMeInLowerCase()
    ensures Text.Lower("Just me") == "just me" && Text.Trim("Just me") == "Just me"
  {
    hide Text.Trim, Text.Lower;
    LowerIs("Just me", "just me");
  }

  lemma JustMe()
    ensures IsAnswer("Just me", "just me") && ExtractTravelers("just me") == 1
  {
    hide IsPlain, Text.Trim, Text.Lower, HasAnyWord, ExtractTravelers;
    JustMeInLowerCase();
    PlainByMarks("Just me", "just me", "haarl", "rbbw", "brcck");
    AloneIsOne("just me", 0);
  }

  lemma AloneIsOne(lower: string, k: nat)
    requires k < |ALONE| && ALONE[k] == lower && IsWordChar(lower[0]) && IsWordChar(lower[|lower| - 1])
    ensures ExtractTravelers(lower) == 1
  {
    hide HasAnyWord, FirstNumberWord, FirstHeadCount, ContainsAny, BareNumber, Text.Trim, IsWordChar;
    WholeIsAnyWord(lower, ALONE, k);
  }

  lemma HelixAirInLowerCase()
    ensures Text.Lower("Helix Air") == "helix air" && Text.Trim("Helix Air") == "Helix Air"
  {
    hide Text.Trim, Text.Lower;
    LowerIs("Helix Air", "helix air");
  }

  lemma HelixAir()
    ensures IsAnswer("Helix Air", "helix air") && ExtractAirline("helix air") != None
  {
    hide IsPlain, Text.Trim, Text.Lower, HasAnyWord, ExtractAirline, HelixAirAt;
    HelixAirInLowerCase();
    PlainByMarks("Helix Air", "helix air", "oscoo", "tbbw", "bscst");
    assert ExtractAirline("helix air") != None by { HelixAirIsThere(); }
  }

  lemma HelixAirIsThere()
    ensures ExtractAirline("helix air") != None
  {
    hide HasAnyWord;
    var s := "helix air";
    assert Span(s, 6, Spaces) == 0 && Span(s, 5, Spaces) == 1;
    assert At(s, 6, "air") && Boundary(s, 9) && HelixAirAt(s, 0);
  }

  lemma Skyline()
    ensures IsAnswer("Skyline", "skyline") && ExtractAirline("skyline") != None
  {
    hide IsPlain, Text.Trim, Text.Lower, HasAnyWord;
    LowerIs("Skyline", "skyline");
    OneWordIsPlain("Skyline", "skyline");
    WholeIsWord("skyline");
  }

  lemma NoPreferenceInLowerCase()
    ensures Text.Lower("No preference") == "no preference" && Text.Trim("No preference") == "No preference"
  {
    hide Text.Trim, Text.Lower;
    LowerIs("No preference", "no preference");
  }

  lemma NoPreference()
    ensures IsAnswer("No preference", "no preference")
  {
    hide IsPlain, Text.Trim, Text.Lower, HasAnyWord;
    NoPreferenceInLowerCase();
    PlainByMarks("No preference", "no preference", "hsaml", "tbbw", "bsist");
  }

  lemma NoPreferenceIsAny(lower: string, k: nat)
    requires k < |ANY_AIRLINE| && ANY_AIRLINE[k] == lower && IsWordChar(lower[0]) && IsWordChar(lower[|lower| - 1])
    ensures ExtractAirline(lower) == Some("any")
  {
    hide HasAnyWord, HasWord, HelixAirAt, IsWordChar;
    WholeIsAnyWord(lower, ANY_AIRLINE, k);
  }

  lemma NoLimitInLowerCase()
    ensures Text.Lower("No limit") == "no limit" && Text.Trim("No limit") == "No limit"
  {
    hide Text.Trim, Text.Lower;
    LowerIs("No limit", "no limit");
  }

  lemma NoLimit()
    ensures IsAnswer("No limit", "no limit") && ExtractBudget("no limit") == Some(0)
  {
    hide IsPlain, Text.Trim, Text.Lower, HasAnyWord, ExtractBudget;
    NoLimitInLowerCase();
    PlainByMarks("No limit", "no limit", "hsarg", "rbbw", "bscsk");
    NoLimitIsZero("no limit", 2);
  }

  lemma NoLimitIsZero(lower: string, k: nat)
    requires k < |NO_LIMIT| && NO_LIMIT[k] == lower && IsWordChar(lower[0]) && IsWordChar(lower[|lower| - 1])
    ensures ExtractBudget(lower) == Some(0)
  {
    hide HasAnyWord, FirstAmount, IsWordChar;
    WholeIsAnyWord(lower, NO_LIMIT, k);
  }

  /** A number of travellers. */
  function Party(d: char): string {
    [d] + " travellers"
  }

  lemma PartyStarts(d: char, i: nat)
    requires IsDigit(d) && i < |Party(d)| && Boundary(Party(d), i)
    ensures Party(d)[i] in [d, ' ', 't']
  {
    var s := Party(d);
    assert i == 0 || IsWordChar(s[i - 1]) != IsWordChar(s[i]);
  }

  /** It has no word that starts otherwise. */
  lemma NotInParty(d: char, word: string)
    requires IsDigit(d) && word != "" && word[0] !in [d, ' ', 't']
    ensures !HasWord(Party(d), word)
  {
    hide Party;
    var s := Party(d);
    forall i: nat | i <= |s| ensures !(At(s, i, word) && Boundary(s, i)) {
      WordIsThere(s, i, word);
      if i < |s| && Boundary(s, i) {
        PartyStarts(d, i);
      }
    }
  }

  lemma TakeIsNotInParty(d: char)
    requires IsDigit(d)
    ensures !HasWord(Party(d), "take")
  {
    ForeignIsNotThere(Party(d), "take", 'k');
  }

  ghost predicate StartsElsewhere(d: char, words: seq<string>) {
    forall k :: 0 <= k < |words| ==> words[k] != "" && words[k][0] !in [d, ' ', 't']
  }

  lemma NoneInParty(d: char, words: seq<string>)
    requires IsDigit(d) && StartsElsewhere(d, words)
    ensures !HasAnyWord(Party(d), words)
  {
    hide HasWord, Party;
    forall k | 0 <= k < |words| ensures !HasWord(Party(d), words[k]) {
      NotInParty(d, words[k]);
    }
  }

  lemma {:induction false} NoNumberWord(s: string, i: nat)
    requires i <= |s| && forall k :: 0 <= k < |NUMBERS| ==> !HasWord(s, NUMBERS[k])
    ensures FirstNumberWord(s, i) == 0
    decreases |s| - i
  {
    assert WhichAt(s, i, NUMBERS) == |NUMBERS| by {
      var k := WhichAt(s, i, NUMBERS);
      assert k < |NUMBERS| ==> HasWord(s, NUMBERS[k]);
    }
    if i < |s| {
      NoNumberWord(s, i + 1);
    }
  }

  lemma PartyHasNoNumberWord(d: char)
    requires IsDigit(d)
    ensures FirstNumberWord(Party(d), 0) == 0
  {
    ForeignIsNotThere(Party(d), "two", 'w');
    ForeignIsNotThere(Party(d), "three", 'h');
    hide HasWord, Party;
    NotInParty(d, "one");
    NotInParty(d, "four");
    NotInParty(d, "five");
    NotInParty(d, "six");
    NoNumberWord(Party(d), 0);
  }

  lemma PartyCounts(d: char)
    requires IsDigit(d)
    ensures FirstHeadCount(Party(d), 0) == Some(DigitValue(d))
  {
    PartyStartsWithIt(d);
    hide HeadCountAt, Party;
  }

  lemma PartyStartsWithIt(d: char)
    requires IsDigit(d)
    ensures HeadCountAt(Party(d), 0) == Some(DigitValue(d))
  {
    var s := Party(d);
    assert Span(s, 1, Digits) == 0 && Span(s, 0, Digits) == 1;
    assert Span(s, 2, Spaces) == 0 && Span(s, 1, Spaces) == 1;
    assert At(s, 2, HEADS[6]) && Boundary(s, 2 + |HEADS[6]|) by { HeadIsThere(d); }
    hide At, Boundary, Span;
    assert Boundary(s, 0) by { PartyHasAWordStart(d); }
    assert ToNat(s[0..1]) == DigitValue(d) by { assert s[0..1] == [d] && [d][..0] == []; }
  }

  lemma PartyHasAWordStart(d: char)
    requires IsDigit(d)
    ensures Boundary(Party(d), 0)
  {
  }

  lemma HeadIsThere(d: char)
    ensures |HEADS[6]| == 10 && At(Party(d), 2, HEADS[6]) && Boundary(Party(d), 12)
  {
  }

  /** Any digit with "travellers" is read as that many. */
  lemma PartyReads(d: char)
    requires IsDigit(d)
    ensures ExtractTravelers(Party(d)) == DigitValue(d)
  {
    PartyHasNoNumberWord(d);
    PartyCounts(d);
    hide HasAnyWord, FirstNumberWord, FirstHeadCount, ContainsAny, BareNumber, Text.Trim, Party;
    assert !HasAnyWord(Party(d), ALONE) by { NoneInParty(d, ALONE); }
  }

  lemma PartyIsItself(d: char)
    requires IsDigit(d)
    ensures Text.Lower(Party(d)) == Party(d) && Text.Trim(Party(d)) == Party(d) && Party(d) != ""
  {
    LowerIs(Party(d), Party(d));
  }

  lemma PartyIsPlain(d: char)
    requires IsDigit(d)
    ensures IsAnswer(Party(d), Party(d))
  {
    hide *;
    PartyIsItself(d);
    PartyIsElsewhere(d);
    PartyBooksNothing(d);
    NoneIsPlain(Party(d));
  }

  lemma NoneIsPlain(message: string)
    requires message != "" && Text.Lower(message) == message && Text.Trim(message) == message
    requires !HasAnyWord(message, ["hotel", "stay", "accommodation", "room", "lodging"])
    requires !HasAnyWord(message, ["return", "back home", "coming back", "way back"])
    requires !HasAnyWord(message, ["book", "reserve", "confirm", "select", "take"])
    ensures IsAnswer(message, message)
  {
    hide HasAnyWord, Text.Lower, Text.Trim;
  }

  lemma PartyIsElsewhere(d: char)
    requires IsDigit(d)
    ensures !HasAnyWord(Party(d), ["hotel", "stay", "accommodation", "room", "lodging"])
    ensures !HasAnyWord(Party(d), ["return", "back home", "coming back", "way back"])
  {
    hide HasAnyWord, Party;
    NoneInParty(d, ["hotel", "stay", "accommodation", "room", "lodging"]);
    NoneInParty(d, ["return", "back home", "coming back", "way back"]);
  }

  lemma PartyBooksNothing(d: char)
    requires IsDigit(d)
    ensures !HasAnyWord(Party(d), ["book", "reserve", "confirm", "select", "take"])
  {
    TakeIsNotInParty(d);
    hide HasWord, Party;
    NotInParty(d, "book");
    NotInParty(d, "reserve");
    NotInParty(d, "confirm");
    NotInParty(d, "select");
  }

  // ---- Amounts -------------------------------------------------------------------------------------------

  lemma {:induction false} SkipToAmount(s: string, i: nat, j: nat)
    requires i <= j && j + 3 <= |s| && forall k :: i <= k < j ==> !IsDigit(s[k])
    ensures FirstAmount(s, i) == FirstAmount(s, j)
    decreases j - i
  {
    if i < j {
      SkipToAmount(s, i + 1, j);
    }
  }

  /** An amount in thousands after some words. */
  function Thousands(words: string, d: char, h: char): string {
    words + [d, ',', h, '0', '0']
  }

  lemma ThousandsRead(words: string, d: char, h: char)
    requires NoDigits(words) && IsDigit(d) && IsDigit(h)
    ensures FirstAmount(Thousands(words, d, h), 0) == Some(1000 * DigitValue(d) + 100 * DigitValue(h))
  {
    var s, n := Thousands(words, d, h), |words|;
    SkipToAmount(s, 0, n);
    AmountOf(s, n, d, h);
  }

  predicate NoDigits(s: string) {
    forall k :: 0 <= k < |s| ==> !IsDigit(s[k])
  }

  lemma AmountOf(s: string, n: nat, d: char, h: char)
    requires IsDigit(d) && IsDigit(h) && |s| == n + 5
    requires s[n] == d && s[n + 1] == ',' && s[n + 2] == h && s[n + 3] == '0' && s[n + 4] == '0'
    ensures FirstAmount(s, n) == Some(1000 * DigitValue(d) + 100 * DigitValue(h))
  {
    hide ToNat;
    assert AmountDigits(s, n + 5) == "";
    assert AmountDigits(s, n + 4) == "0";
    assert AmountDigits(s, n + 3) == "00";
    assert AmountDigits(s, n + 2) == [h, '0', '0'];
    assert AmountDigits(s, n + 1) == [h, '0', '0'];
    assert AmountDigits(s, n) == [d, h, '0', '0'];
    FourDigits(d, h);
  }

  lemma FourDigits(d: char, h: char)
    requires IsDigit(d) && IsDigit(h)
    ensures ToNat([d, h, '0', '0']) == 1000 * DigitValue(d) + 100 * DigitValue(h)
  {
    assert [d, h, '0', '0'][..3] == [d, h, '0'] && [d, h, '0'][..2] == [d, h] && [d, h][..1] == [d] && [d][..0] == [];
    assert ToNat([d]) == DigitValue(d);
    assert ToNat([d, h]) == 10 * DigitValue(d) + DigitValue(h);
    assert ToNat([d, h, '0']) == 100 * DigitValue(d) + 10 * DigitValue(h);
  }

  /** Without these letters no budget word is there. */
  lemma NoBudgetWords(s: string)
    requires forall c :: c in "blspmcf" ==> c !in s
    ensures !HasAnyWord(s, NO_LIMIT) && !HasAnyWord(s, LUXURY) && !HasAnyWord(s, MODERATE) && !HasAnyWord(s, CHEAP)
  {
    hide HasAnyWord;
    assert forall k :: 0 <= k < |NO_LIMIT| ==> IsForeign(s, NO_LIMIT[k], "bblss"[k]);
    ForeignAreNotThere(s, NO_LIMIT, "bblss");
    assert forall k :: 0 <= k < |LUXURY| ==> IsForeign(s, LUXURY[k], "lpb"[k]);
    ForeignAreNotThere(s, LUXURY, "lpb");
    assert forall k :: 0 <= k < |MODERATE| ==> IsForeign(s, MODERATE[k], "mmsm"[k]);
    ForeignAreNotThere(s, MODERATE, "mmsm");
    assert forall k :: 0 <= k < |CHEAP| ==> IsForeign(s, CHEAP[k], "bccf"[k]);
    ForeignAreNotThere(s, CHEAP, "bccf");
  }

  lemma ThousandsAreBudget(words: string, d: char, h: char)
    requires NoDigits(words) && IsDigit(d) && IsDigit(h) && d != '0'
    requires forall c :: c in "blspmcf" ==> c !in words
    ensures ExtractBudget(Thousands(words, d, h)) == Some(1000 * DigitValue(d) + 100 * DigitValue(h))
  {
    var s := Thousands(words, d, h);
    forall c | c in "blspmcf" ensures c !in s {
      assert !IsDigit(c) && c != ',';
    }
    NoBudgetWords(s);
    ThousandsRead(words, d, h);
    hide *;
    assert 1000 * DigitValue(d) + 100 * DigitValue(h) >= 1000 by { NotZero(d); }
    NoWordButAnAmount(s);
  }

  lemma NotZero(d: char)
    requires IsDigit(d) && d != '0'
    ensures DigitValue(d) >= 1
  {
  }

  lemma Under()
    ensures IsAnswer("Under \U{20B9}5,500", "under \U{20B9}5,500") && ExtractBudget("under \U{20B9}5,500") == Some(5500)
  {
    UnderIsPlain();
    hide IsAnswer, ExtractBudget;
    ThousandsAreBudget("under \U{20B9}", '5', '5');
    assert Thousands("under \U{20B9}", '5', '5') == "under \U{20B9}5,500";
  }

  lemma UnderInLowerCase()
    ensures Text.Lower("Under \U{20B9}5,500") == "under \U{20B9}5,500" && Text.Trim("Under \U{20B9}5,500") == "Under \U{20B9}5,500"
  {
    hide Text.Trim, Text.Lower;
    LowerIs("Under \U{20B9}5,500", "under \U{20B9}5,500");
  }

  lemma UnderIsPlain()
    ensures IsAnswer("Under \U{20B9}5,500", "under \U{20B9}5,500")
  {
    hide IsPlain, Text.Trim, Text.Lower, HasAnyWord;
    UnderInLowerCase();
    PlainByMarks("Under \U{20B9}5,500", "under \U{20B9}5,500", "hsaml", "tbbw", "bsist");
  }

  lemma Around()
    ensures IsAnswer("Around \U{20B9}8,000", "around \U{20B9}8,000") && ExtractBudget("around \U{20B9}8,000") == Some(8000)
  {
    AroundIsPlain();
    hide IsAnswer, ExtractBudget;
    ThousandsAreBudget("around \U{20B9}", '8', '0');
    assert Thousands("around \U{20B9}", '8', '0') == "around \U{20B9}8,000";
  }

  lemma AroundInLowerCase()
    ensures Text.Lower("Around \U{20B9}8,000") == "around \U{20B9}8,000" && Text.Trim("Around \U{20B9}8,000") == "Around \U{20B9}8,000"
  {
    hide Text.Trim, Text.Lower;
    LowerIs("Around \U{20B9}8,000", "around \U{20B9}8,000");
  }

  lemma AroundIsPlain()
    ensures IsAnswer("Around \U{20B9}8,000", "around \U{20B9}8,000")
  {
    hide IsPlain, Text.Trim, Text.Lower, HasAnyWord;
    AroundInLowerCase();
    PlainByMarks("Around \U{20B9}8,000", "around \U{20B9}8,000", "hscml", "tbbw", "bsist");
  }

  // ---- Every offered answer -------------------------------------------------------------------------------

  /** An offered day is printed as a date exactly when its year has four digits; the date then parses as that day and
      is read as itself on any day. */
  lemma OfferedDayIsADateIff(day: int, n: nat, today: int)
    ensures IsoShape(DaysOn(day, n)) <==> 0 <= Calendar.YearOf(day + n) <= 9999
    ensures 0 <= Calendar.YearOf(day + n) <= 9999 ==>
              ParseIso(DaysOn(day, n)) == Some(day + n) && ExtractDate(DaysOn(day, n), today) == Some(DaysOn(day, n))
  {
    Calendar.AddingDays(day, n);
    hide Calendar.YearOf, Calendar.MonthOf, Calendar.DateOf, Calendar.WithDate, IsoDate, ParseIso, ExtractDate, IsoShape;
    if 0 <= Calendar.YearOf(day + n) <= 9999 {
      PrintedDayParses(day + n);
      DateIsRead(DaysOn(day, n), today);
    } else {
      OtherYearsHaveASign(day + n);
    }
  }

  /** What the reading of an answer has, slot by slot. */
  predicate Tells(slot: Slot, message: string, lower: string) {
    match slot
    case Destination => lower in CITY_NAMES && CITY_NAMES[lower] != TVM
    case Origin => lower in CITY_NAMES && CITY_NAMES[lower] == TVM
    case DepartureDate => IsoShape(message)
    case ReturnDate => IsoShape(message)
    case Travelers => ExtractTravelers(lower) != 0
    case Airline => ExtractAirline(lower) != None
    case Budget => ExtractBudget(lower) != None
  }

  /** Each offered answer is read as what was asked, and as no hotel, return or booking. */
  lemma SuggestionTells(slot: Slot, p: TripProfile, message: string, offered: int)
    requires message in Suggestions(slot, p, offered)
    requires IsDateSlot(slot) ==> IsoShape(message)
    ensures IsAnswer(message, Text.Lower(message)) && Tells(slot, message, Text.Lower(message))
  {
    hide IsAnswer, IsoShape, ExtractTravelers, ExtractAirline, ExtractBudget, DaysOn, ParseIso;
    match slot {
      case Destination => Cities();
      case Origin => Cities();
      case DepartureDate => DateTells(message);
      case ReturnDate => DateTells(message);
      case Travelers => Parties();
      case Airline => Airlines();
      case Budget => Budgets();
    }
  }

  lemma DateTells(message: string)
    requires IsoShape(message)
    ensures IsAnswer(message, Text.Lower(message))
  {
    hide *;
    DateIsItself(message);
    DateReads(message, 0);
    DateAnswers(message);
  }

  lemma DateAnswers(message: string)
    requires |message| == 10 && Text.Trim(message) == message && IsPlain(message)
    ensures IsAnswer(message, Text.Lower(message))
  {
    hide IsPlain, Text.Lower, Text.Trim;
  }

  ghost predicate Answers(message: string, lower: string) {
    IsAnswer(message, lower) && Text.Lower(message) == lower
  }

  lemma AnswersWhen(message: string, lower: string)
    requires IsAnswer(message, lower)
    ensures Answers(message, lower)
  {
    hide IsPlain, Text.Trim, Text.Lower;
  }

  lemma Cities()
    ensures Answers("Delhi", "delhi") && Answers("Mumbai", "mumbai") && Answers("Thiruvananthapuram", "thiruvananthapuram")
  {
    hide *;
    Delhi();
    Mumbai();
    Thiruvananthapuram();
    AnswersWhen("Delhi", "delhi");
    AnswersWhen("Mumbai", "mumbai");
    AnswersWhen("Thiruvananthapuram", "thiruvananthapuram");
  }

  lemma Parties()
    ensures Answers("Just me", "just me") && ExtractTravelers("just me") == 1
    ensures Answers("2 travellers", "2 travellers") && ExtractTravelers("2 travellers") == 2
    ensures Answers("3 travellers", "3 travellers") && ExtractTravelers("3 travellers") == 3
  {
    hide ExtractTravelers, IsAnswer, Answers;
    JustMe();
    AnswersWhen("Just me", "just me");
    PartyIsPlain('2');
    PartyReads('2');
    assert Party('2') == "2 travellers" && Party('3') == "3 travellers";
    AnswersWhen("2 travellers", "2 travellers");
    PartyIsPlain('3');
    PartyReads('3');
    AnswersWhen("3 travellers", "3 travellers");
  }

  lemma Airlines()
    ensures Answers("Helix Air", "helix air") && ExtractAirline("helix air") != None
    ensures Answers("Skyline", "skyline") && ExtractAirline("skyline") != None
    ensures Answers("No preference", "no preference") && ExtractAirline("no preference") != None
  {
    hide ExtractAirline, IsAnswer, Answers, HasAnyWord;
    HelixAir();
    Skyline();
    NoPreference();
    NoPreferenceIsAny("no preference", 0);
    AnswersWhen("Helix Air", "helix air");
    AnswersWhen("Skyline", "skyline");
    AnswersWhen("No preference", "no preference");
  }

  lemma Budgets()
    ensures Answers("Under \U{20B9}5,500", "under \U{20B9}5,500") && ExtractBudget("under \U{20B9}5,500") == Some(5500)
    ensures Answers("Around \U{20B9}8,000", "around \U{20B9}8,000") && ExtractBudget("around \U{20B9}8,000") == Some(8000)
    ensures Answers("No limit", "no limit") && ExtractBudget("no limit") == Some(0)
  {
    hide *;
    Under();
    Around();
    NoLimit();
    AnswersWhen("Under \U{20B9}5,500", "under \U{20B9}5,500");
    AnswersWhen("Around \U{20B9}8,000", "around \U{20B9}8,000");
    AnswersWhen("No limit", "no limit");
  }

  lemma TravelersAreRead(message: string, today: int)
    ensures var (r, lower) := (ReadMessage(message, today), Text.Lower(Text.Trim(message)));
            && r.travelers == ExtractTravelers(lower) && r.airline == ExtractAirline(lower) && r.budget == ExtractBudget(lower)
            && r.date == ExtractDate(Text.Trim(message), today)
  {
    hide ExtractTravelers, ExtractAirline, ExtractBudget, FirstCityAfter, CityIn, Correcting, ExtractDate;
  }

  /** An offered answer, given back whenever, fills the slot it was offered for, but for one case: the one city offered
      as the place to fly from, when that is where the trip goes. */
  lemma SuggestionFillsIff(track: Track, p: TripProfile, message: string, offered: int, today: int)
    requires NextQuestion(track, p).Some?
    requires var slot := NextQuestion(track, p).value;
             message in Suggestions(slot, p, offered) && (IsDateSlot(slot) ==> IsoShape(message))
    ensures var slot := NextQuestion(track, p).value;
            Missing(Heard(p, track, Said(message, today)), slot) <==> slot == Origin && p.destination == Some(TVM)
    ensures p.destination.None? ==> Heard(p, track, Said(message, today)).destination != Some(TVM)
    ensures IsAnswer(message, Text.Lower(message))
  {
    hide *;
    var slot := NextQuestion(track, p).value;
    SuggestionTells(slot, p, message, offered);
    ToldIsFilled(track, p, slot, message, today);
  }

  lemma ToldIsFilled(track: Track, p: TripProfile, slot: Slot, message: string, today: int)
    requires NextQuestion(track, p) == Some(slot)
    requires IsAnswer(message, Text.Lower(message)) && Tells(slot, message, Text.Lower(message))
    ensures Missing(Heard(p, track, Said(message, today)), slot) <==> slot == Origin && p.destination == Some(TVM)
    ensures p.destination.None? ==> Heard(p, track, Said(message, today)).destination != Some(TVM)
  {
    hide ReadMessage, IsAnswer, IsoShape, ExtractTravelers, ExtractAirline, ExtractBudget, ExtractDate, Text.Lower, Text.Trim;
    AnswerIsAsGiven(message);
    TravelersAreRead(message, today);
    if slot == Destination || slot == Origin {
      CityNameAnswers(message, today, p, track == Return);
    } else if IsDateSlot(slot) {
      DateIsRead(message, today);
    }
  }

  lemma AnswerIsAsGiven(message: string)
    requires IsAnswer(message, Text.Lower(message))
    ensures Text.Trim(message) == message
  {
    hide IsPlain, Text.Lower, Text.Trim;
  }

  // ---- Tapping through ----------------------------------------------------------------------------------------

  /** An offered answer: its text, the day it was offered and the day it is read. */
  datatype Tap = Tap(message: string, offered: int, today: int)

  /** One request after another, each in reply to the question before, until nothing is asked. */
  function TapThrough(p: TripProfile, track: Track, taps: seq<Tap>): (TripProfile, Reply)
    requires taps != []
    decreases |taps|
  {
    var (p', reply) := Planned(taps[0].message, taps[0].today, p, true, Some(track));
    if |taps| == 1 || !reply.Ask? then (p', reply) else TapThrough(p', reply.track, taps[1..])
  }

  /** Every tap is an answer offered with the question it replies to, its date printed with a four-digit year. */
  predicate AreOffered(p: TripProfile, track: Track, taps: seq<Tap>)
    decreases |taps|
  {
    taps == [] || NextQuestion(track, p).None? ||
    (var (slot, tap) := (NextQuestion(track, p).value, taps[0]);
     && tap.message in Suggestions(slot, p, tap.offered)
     && (IsDateSlot(slot) ==> IsoShape(tap.message))
     && AreOffered(Heard(p, track, Said(tap.message, tap.today)), track, taps[1..]))
  }

  /** The one city offered as a place to fly from is not where the trip goes, as far as that still matters. */
  predicate CanFlyFromHome(p: TripProfile, track: Track) {
    track == Hotel || p.destination != Some(TVM) || p.origin.Some?
  }

  /** A plain answer keeps the track; the reply is the next question, or the search. */
  lemma AnswerKeepsTrack(p: TripProfile, track: Track, message: string, today: int)
    requires IsAnswer(message, Text.Lower(message))
    ensures var p' := Heard(p, track, Said(message, today));
            Planned(message, today, p, true, Some(track)) ==
              (p', if NextQuestion(track, p').Some? then Ask(NextQuestion(track, p').value, track)
                   else RunSearch(SearchFor(track, p'), track))
  {
    hide ReadMessage, ExtractSlots, MentionsHotel, MentionsReturn, ConfirmsOption, WantsFlight, Text.Lower, Text.Trim, NextQuestion, SearchFor;
  }

  lemma TapKeepsHome(track: Track, p: TripProfile, tap: Tap)
    requires NextQuestion(track, p).Some? && CanFlyFromHome(p, track)
    requires AreOffered(p, track, [tap])
    ensures var p' := Heard(p, track, Said(tap.message, tap.today));
            && CanFlyFromHome(p', track)
            && MissingCount(track, p') < MissingCount(track, p)
    ensures IsAnswer(tap.message, Text.Lower(tap.message))
  {
    var slot := NextQuestion(track, p).value;
    var r := ReadMessage(tap.message, tap.today);
    var p' := Heard(p, track, Said(tap.message, tap.today));
    assert [tap][0] == tap;
    SuggestionFillsIff(track, p, tap.message, tap.offered, tap.today);
    AnswerMakesProgress(track, p, r, track == Return);
    ExtractionNeverEmptiesASlot(r, p, track == Return, Origin);
    hide ReadMessage, ExtractSlots, Suggestions, IsAnswer, MissingCount, IsoShape;
  }

  /** Tapping the answers offered, as often as slots are missing, always ends in a search of the same leg, if the trip
      does not go to the one city offered to fly from. */
  lemma {:induction false} TappingReachesASearch(p: TripProfile, track: Track, taps: seq<Tap>)
    requires NextQuestion(track, p).Some? && CanFlyFromHome(p, track)
    requires AreOffered(p, track, taps) && |taps| >= MissingCount(track, p) && taps != []
    ensures TapThrough(p, track, taps).1.RunSearch? && TapThrough(p, track, taps).1.track == track
    decreases |taps|
  {
    hide Planned, Heard, NextQuestion, Suggestions, MissingCount, IsoShape, CanFlyFromHome, SearchFor, IsAnswer, Text.Lower;
    var tap := taps[0];
    var p' := Heard(p, track, Said(tap.message, tap.today));
    assert AreOffered(p, track, [tap]);
    TapKeepsHome(track, p, tap);
    AnswerKeepsTrack(p, track, tap.message, tap.today);
    QuestionIsForAMissingSlot(track, p');
    if NextQuestion(track, p').Some? {
      TappingReachesASearch(p', track, taps[1..]);
    }
  }

  function Replies(taps: seq<Tap>): seq<Said> {
    if taps == [] then [] else [Said(taps[0].message, taps[0].today)] + Replies(taps[1..])
  }

  /** Offered answers are responsive, whatever is said once nothing is asked. */
  lemma {:induction false} TapsAreResponsive(p: TripProfile, track: Track, taps: seq<Tap>)
    requires CanFlyFromHome(p, track) && AreOffered(p, track, taps)
    ensures Responsive(p, track, Replies(taps))
    decreases |taps|
  {
    hide Heard, NextQuestion, Suggestions, MissingCount, IsoShape, CanFlyFromHome, IsAnswer, Missing;
    if taps != [] {
      var tap := taps[0];
      var p' := Heard(p, track, Said(tap.message, tap.today));
      assert Replies(taps)[1..] == Replies(taps[1..]);
      if NextQuestion(track, p).Some? {
        assert AreOffered(p, track, [tap]);
        TapKeepsHome(track, p, tap);
        TapFills(track, p, tap);
      } else {
        NothingIsAskedAgain(track, p, Said(tap.message, tap.today));
        SaidKeepsHome(p, track, Said(tap.message, tap.today));
      }
      TapsAreResponsive(p', track, taps[1..]);
    }
  }

  lemma TapFills(track: Track, p: TripProfile, tap: Tap)
    requires NextQuestion(track, p).Some? && CanFlyFromHome(p, track) && AreOffered(p, track, [tap])
    ensures !Missing(Heard(p, track, Said(tap.message, tap.today)), NextQuestion(track, p).value)
  {
    hide Heard, Suggestions, IsoShape, IsAnswer;
    assert [tap][0] == tap;
    SuggestionFillsIff(track, p, tap.message, tap.offered, tap.today);
  }

  lemma NothingIsAskedAgain(track: Track, p: TripProfile, said: Said)
    requires NextQuestion(track, p).None?
    ensures NextQuestion(track, Heard(p, track, said)).None?
  {
    hide ReadMessage;
  }

  lemma SaidKeepsHome(p: TripProfile, track: Track, said: Said)
    requires NextQuestion(track, p).None?
    ensures CanFlyFromHome(p, track) && CanFlyFromHome(Heard(p, track, said), track)
  {
    hide ReadMessage;
  }

  /** In a trip to that city the offered place to fly from is asked for again, as often as it is tapped. */
  lemma {:induction false} TappingHomeNeverEnds(p: TripProfile, taps: seq<Tap>)
    requires taps != [] && NextQuestion(Flight, p) == Some(Origin) && p.destination == Some(TVM)
    requires forall i :: 0 <= i < |taps| ==> taps[i].message == "Thiruvananthapuram"
    ensures TapThrough(p, Flight, taps).1 == Ask(Origin, Flight)
    decreases |taps|
  {
    hide Planned, Heard, NextQuestion, IsAnswer, Text.Lower, SearchFor;
    var tap := taps[0];
    var p' := Heard(p, Flight, Said(tap.message, tap.today));
    HomeStaysDestination(p, tap.today);
    AnswerKeepsTrack(p, Flight, tap.message, tap.today);
    if |taps| > 1 {
      TappingHomeNeverEnds(p', taps[1..]);
    }
  }

  lemma HomeStaysDestination(p: TripProfile, today: int)
    requires NextQuestion(Flight, p) == Some(Origin) && p.destination == Some(TVM)
    ensures var p' := Heard(p, Flight, Said("Thiruvananthapuram", today));
            NextQuestion(Flight, p') == Some(Origin) && p'.destination == Some(TVM)
    ensures IsAnswer("Thiruvananthapuram", Text.Lower("Thiruvananthapuram"))
  {
    hide *;
    Cities();
    AnswerIsNamed("Thiruvananthapuram", "thiruvananthapuram");
    NameAgain("Thiruvananthapuram", p, today);
  }

  lemma NameAgain(message: string, p: TripProfile, today: int)
    requires NextQuestion(Flight, p) == Some(Origin) && p.destination == Some(TVM)
    requires Text.Lower(Text.Trim(message)) == "thiruvananthapuram"
    ensures var p' := Heard(p, Flight, Said(message, today));
            NextQuestion(Flight, p') == Some(Origin) && p'.destination == Some(TVM)
  {
    hide ReadMessage, Text.Lower, Text.Trim;
    NamesAreWords("thiruvananthapuram");
    OneWordReads(message, today);
  }

  lemma AnswerIsNamed(message: string, lower: string)
    requires Answers(message, lower)
    ensures Text.Lower(Text.Trim(message)) == lower && IsAnswer(message, Text.Lower(message))
  {
    hide Text.Lower, Text.Trim, IsPlain;
  }
}
