/** What answers do to the trip: a lone city, a date, and the answers offered with each question. */
module TripAnswers {
  import opened Common
  import opened DatePhrases
  import opened MessageReading
  import opened TripSlots
  import Calendar
  import Text

  // ---- Any message ----------------------------------------------------------------------------------

  /** Answering on the return leg, unless hotels are mentioned: a date becomes the return date and
      the outbound date stays, so the question it answers is not asked again. */
  lemma ReturnDateLandsOnTheReturnLeg(message: string, today: int, p: TripProfile)
    requires !MentionsHotel(Text.Lower(message)) && ExtractDate(Text.Trim(message), today).Some?
    ensures var track := ResolveTrack(message, true, Some(Return));
            var p' := ExtractSlots(ReadMessage(message, today), p, track == Return);
            && track == Return
            && p'.returnDate == ExtractDate(Text.Trim(message), today) && p'.departureDate == p.departureDate
            && NextReturnQuestion(p') != Some(ReturnDate)
  {
    hide MentionsHotel, MentionsReturn, ExtractDate;
  }

  /** The question where to fly from is answered by a message exactly when it says "from" a city, or gives a lone city
      that is not the destination and does not correct it. Otherwise the same question stands. */
  lemma OriginIsAnsweredIff(message: string, today: int, p: TripProfile, forReturn: bool)
    requires NextFlightQuestion(p) == Some(Origin)
    ensures var (r, p') := (ReadMessage(message, today), ExtractSlots(ReadMessage(message, today), p, forReturn));
            && (!Missing(p', Origin) <==>
                r.origin.Some? || (r.destination.None? && r.single.Some? && !r.correcting && r.single != p.destination))
            && (Missing(p', Origin) ==> NextFlightQuestion(p') == Some(Origin))
  {
    hide ReadMessage;
  }

  // ---- One word ---------------------------------------------------------------------------------------

  predicate OneWord(s: string) {
    s != "" && forall i :: 0 <= i < |s| ==> IsLetter(s[i])
  }

  lemma OneWordHas(s: string, word: string)
    requires OneWord(s) && word != ""
    ensures HasWord(s, word) <==> s == word
  {
    assert forall i :: 0 <= i <= |s| && Boundary(s, i) ==> i == 0 || i == |s|;
    if s == word {
      assert At(s, 0, word) && Boundary(s, 0) && Boundary(s, |s|);
    }
  }

  lemma OneWordHasAny(s: string, words: seq<string>)
    requires OneWord(s) && "" !in words
    ensures HasAnyWord(s, words) <==> s in words
  {
    hide HasWord;
    forall k | 0 <= k < |words| ensures HasWord(s, words[k]) <==> s == words[k] {
      OneWordHas(s, words[k]);
    }
  }

  lemma {:induction false} OneWordHasNoDirection(s: string, preposition: string, i: nat)
    requires OneWord(s) && i <= |s|
    ensures FirstCityAfter(s, preposition, i) == None
    decreases |s| - i
  {
    hide CityIn;
    assert PhraseAt(s, preposition, i) == None by {
      if At(s, i, preposition) {
        assert Span(s, i + |preposition|, Spaces) == 0;
      }
    }
    if i < |s| {
      OneWordHasNoDirection(s, preposition, i + 1);
    }
  }

  const CITY_NAMES: map<string, City> := map[
    "tvm" := TVM, "trivandrum" := TVM, "thiruvananthapuram" := TVM, "del" := DEL, "delhi" := DEL,
    "bom" := BOM, "bombay" := BOM, "mumbai" := BOM]

  /** A message of one word is a lone city exactly when it is one of the names, in any case. */
  lemma OneWordReads(message: string, today: int)
    requires OneWord(Text.Lower(Text.Trim(message)))
    ensures var (word, r) := (Text.Lower(Text.Trim(message)), ReadMessage(message, today));
            && r.origin.None? && r.destination.None?
            && r.single == (if word in CITY_NAMES then Some(CITY_NAMES[word]) else None)
            && (r.correcting <==> word in ["actually", "instead", "rather"])
  {
    var word := Text.Lower(Text.Trim(message));
    hide FirstCityAfter, HasAnyWord, ExtractDate, ExtractTravelers, ExtractAirline, ExtractBudget, Text.Lower, Text.Trim, OneWord;
    OneWordHasNoDirection(word, "from", 0);
    OneWordHasNoDirection(word, "to", 0);
    OneWordCities(word);
    OneWordCorrects(word);
  }

  lemma OneWordCities(word: string)
    requires OneWord(word)
    ensures CityIn(word) == if word in CITY_NAMES then Some(CITY_NAMES[word]) else None
  {
    hide HasAnyWord;
    OneWordHasAny(word, ["tvm", "trivandrum", "thiruvananthapuram"]);
    OneWordHasAny(word, ["del", "delhi", "new delhi"]);
    OneWordHasAny(word, ["bom", "bombay", "mumbai"]);
    assert !IsLetter("new delhi"[3]);
  }

  lemma OneWordCorrects(word: string)
    requires OneWord(word)
    ensures Correcting(word) <==> word in ["actually", "instead", "rather"]
  {
    hide HasAnyWord;
    OneWordHasAny(word, ["actually", "instead", "change to", "change it to", "make it", "rather", "no,"]);
    assert !IsLetter("change to"[6]) && !IsLetter("change it to"[6]) && !IsLetter("make it"[4]) && !IsLetter("no,"[2]);
  }

  /** The question where to fly to is answered by any city's name; the question where to fly from exactly by the name
      of a city that is not the destination. */
  lemma CityNameAnswers(message: string, today: int, p: TripProfile, forReturn: bool)
    requires Text.Lower(Text.Trim(message)) in CITY_NAMES
    ensures var city := CITY_NAMES[Text.Lower(Text.Trim(message))];
            var p' := ExtractSlots(ReadMessage(message, today), p, forReturn);
            && (p.destination.None? ==> p'.destination == Some(city))
            && (p.destination.Some? && p.origin.None? ==> (!Missing(p', Origin) <==> Some(city) != p.destination))
  {
    hide OneWord, ReadMessage, Text.Lower, Text.Trim;
    NamesAreWords(Text.Lower(Text.Trim(message)));
    OneWordReads(message, today);
  }

  lemma NamesAreWords(word: string)
    requires word in CITY_NAMES
    ensures OneWord(word) && word !in ["actually", "instead", "rather"]
  {
    if word == "trivandrum" {
    } else if word == "thiruvananthapuram" {
    } else if word == "bombay" {
    } else if word == "mumbai" {
    } else if word == "delhi" {
    }
  }

  /** What a one-word message says of everything but cities and dates. */
  lemma OneWordTells(word: string)
    requires OneWord(word)
    ensures ExtractTravelers(word)
         == if word in ["solo", "myself", "alone"] then 1
            else if word == "one" then 1 else if word == "two" then 2 else if word == "three" then 3
            else if word == "four" then 4 else if word == "five" then 5 else if word == "six" then 6 else 0
    ensures ExtractAirline(word)
         == if word == "any" then Some("any") else if word == "helixair" then Some("Helix Air")
            else if word == "skyline" then Some("Skyline") else None
    ensures ExtractBudget(word)
         == if word in ["luxury", "premium"] then Some(12000) else if word in ["mid", "moderate", "standard"] then Some(8000)
            else if word in ["budget", "cheap", "economical", "affordable"] then Some(5500) else None
    ensures MentionsHotel(word) <==> word in ["hotel", "stay", "accommodation", "room", "lodging"]
    ensures MentionsReturn(word) <==> word == "return"
  {
    hide *;
    OneWordTravelers(word);
    OneWordAirline(word);
    OneWordBudget(word);
    OneWordMentions(word);
  }

  lemma OneWordMentions(word: string)
    requires OneWord(word)
    ensures MentionsHotel(word) <==> word in ["hotel", "stay", "accommodation", "room", "lodging"]
    ensures MentionsReturn(word) <==> word == "return"
  {
    hide HasAnyWord;
    OneWordHasAny(word, ["hotel", "stay", "accommodation", "room", "lodging"]);
    OneWordHasAny(word, ["return", "back home", "coming back", "way back"]);
    assert !IsLetter("back home"[4]) && !IsLetter("coming back"[6]) && !IsLetter("way back"[3]);
  }

  lemma OneWordBudget(word: string)
    requires OneWord(word)
    ensures ExtractBudget(word)
         == if word in ["luxury", "premium"] then Some(12000) else if word in ["mid", "moderate", "standard"] then Some(8000)
            else if word in ["budget", "cheap", "economical", "affordable"] then Some(5500) else None
  {
    hide HasAnyWord, FirstAmount;
    OneWordHasAny(word, NO_LIMIT);
    OneWordHasAny(word, LUXURY);
    OneWordHasAny(word, MODERATE);
    OneWordHasAny(word, CHEAP);
    NotOneWord(word);
    NoAmountInLetters(word, 0);
  }

  /** What has a blank, a dash or an apostrophe in it is more than a word. */
  lemma NotOneWord(word: string)
    requires OneWord(word)
    ensures word !in ["no budget", "any budget", "no limit", "doesn't matter", "doesnt matter", "best available", "mid-range"]
    ensures word !in ["no preference", "any airline", "any carrier", "no pref", "just me", "only me"]
  {
    assert !IsLetter("no budget"[2]) && !IsLetter("any budget"[3]) && !IsLetter("no limit"[2]);
    assert !IsLetter("doesn't matter"[5]) && !IsLetter("doesnt matter"[6]) && !IsLetter("best available"[4]) && !IsLetter("mid-range"[3]);
    assert !IsLetter("no preference"[2]) && !IsLetter("any airline"[3]) && !IsLetter("any carrier"[3]) && !IsLetter("no pref"[2]);
    assert !IsLetter("just me"[4]) && !IsLetter("only me"[4]);
  }

  lemma {:induction false} NoAmountInLetters(s: string, i: nat)
    requires i <= |s| && forall k :: 0 <= k < |s| ==> IsLetter(s[k])
    ensures FirstAmount(s, i) == None
    decreases |s| - i
  {
    if i < |s| {
      NoAmountInLetters(s, i + 1);
    }
  }

  lemma OneWordAirline(word: string)
    requires OneWord(word)
    ensures ExtractAirline(word)
         == if word == "any" then Some("any") else if word == "helixair" then Some("Helix Air")
            else if word == "skyline" then Some("Skyline") else None
  {
    hide HasAnyWord, HasWord;
    OneWordHasAny(word, ANY_AIRLINE);
    OneWordHas(word, "skyline");
    NotOneWord(word);
    OneWordHelix(word);
  }

  lemma OneWordHelix(word: string)
    requires OneWord(word)
    ensures (exists i :: 0 <= i <= |word| && HelixAirAt(word, i)) <==> word == "helixair"
  {
    HelixAirIsOneWord();
    forall i | 0 <= i <= |word| ensures HelixAirAt(word, i) ==> word == "helixair" {
      HelixAirIsAll(word, i);
    }
    if word == "helixair" {
      assert HelixAirAt(word, 0);
    }
  }

  lemma HelixAirIsOneWord()
    ensures HelixAirAt("helixair", 0)
  {
    assert Span("helixair", 5, Spaces) == 0 && At("helixair", 5, "air");
  }

  lemma HelixAirIsAll(word: string, i: nat)
    requires OneWord(word) && i <= |word|
    ensures HelixAirAt(word, i) ==> word == "helixair"
  {
    if HelixAirAt(word, i) {
      assert i == 0 && Span(word, 5, Spaces) == 0;
      assert Boundary(word, 8) && |word| == 8;
      assert word == word[0..5] + word[5..8];
    }
  }

  lemma OneWordTravelers(word: string)
    requires OneWord(word)
    ensures ExtractTravelers(word)
         == if word in ["solo", "myself", "alone"] then 1
            else if word == "one" then 1 else if word == "two" then 2 else if word == "three" then 3
            else if word == "four" then 4 else if word == "five" then 5 else if word == "six" then 6 else 0
  {
    hide HasAnyWord, FirstNumberWord, FirstHeadCount, ContainsAny, BareNumber, Text.Trim, OneWord;
    OneWordHasAny(word, ALONE);
    NotOneWord(word);
    OneWordNumber(word);
    LettersAreNoNumber(word);
  }

  lemma LettersAreNoNumber(word: string)
    requires OneWord(word)
    ensures Text.Trim(word) == word && BareNumber(word) == 0 && FirstHeadCount(word, 0) == None
  {
    Text.TrimIsTrimmed(word);
    NoHeadsInLetters(word, 0);
  }

  lemma {:induction false} NoHeadsInLetters(s: string, i: nat)
    requires i <= |s| && forall k :: 0 <= k < |s| ==> IsLetter(s[k])
    ensures FirstHeadCount(s, i) == None
    decreases |s| - i
  {
    if i < |s| {
      NoHeadsInLetters(s, i + 1);
    }
  }

  lemma OneWordNumber(word: string)
    requires OneWord(word)
    ensures FirstNumberWord(word, 0)
         == if word == "one" then 1 else if word == "two" then 2 else if word == "three" then 3
            else if word == "four" then 4 else if word == "five" then 5 else if word == "six" then 6 else 0
    ensures FirstNumberWord(word, 0) != 0 <==> word in NUMBERS
  {
    NumberWordAt(word);
    NoNumberInside(word, 1);
  }

  /** At the start it is the number word if it is one. */
  lemma NumberWordAt(word: string)
    requires OneWord(word)
    ensures forall k :: 0 <= k < |NUMBERS| ==> (WordAt(word, 0, NUMBERS[k]) <==> word == NUMBERS[k])
  {
    forall k | 0 <= k < |NUMBERS| ensures WordAt(word, 0, NUMBERS[k]) <==> word == NUMBERS[k] {
      var n := |NUMBERS[k]|;
      if n <= |word| && Boundary(word, n) {
        assert n == |word|;
        assert word[0..n] == word;
      }
    }
  }

  lemma {:induction false} NoNumberInside(word: string, i: nat)
    requires OneWord(word) && 1 <= i <= |word|
    ensures FirstNumberWord(word, i) == 0
    decreases |word| - i
  {
    assert WhichAt(word, i, NUMBERS) == |NUMBERS|;
    if i < |word| {
      NoNumberInside(word, i + 1);
    }
  }

  // ---- Words that are not there -----------------------------------------------------------------------

  /** A character of the word is missing from the text. */
  predicate IsForeign(s: string, word: string, mark: char) {
    mark in word && mark !in s
  }

  lemma ForeignIsNotThere(s: string, word: string, mark: char)
    requires IsForeign(s, word, mark)
    ensures !HasWord(s, word)
  {
    forall i: nat | i <= |s| ensures !(At(s, i, word) && Boundary(s, i)) {
      WordIsThere(s, i, word);
    }
  }

  lemma WordIsThere(s: string, i: nat, word: string)
    ensures At(s, i, word) && word != "" ==> i < |s| && s[i] == word[0] && forall c :: c in word ==> c in s
  {
    if At(s, i, word) && word != "" {
      assert s[i..i + |word|][0] == s[i];
      forall c | c in word ensures c in s {
        assert c in s[i..i + |word|];
      }
    }
  }

  lemma ForeignAreNotThere(s: string, words: seq<string>, marks: string)
    requires |marks| == |words| && forall k :: 0 <= k < |words| ==> IsForeign(s, words[k], marks[k])
    ensures !HasAnyWord(s, words)
  {
    hide HasWord, IsForeign;
    forall k | 0 <= k < |words| ensures !HasWord(s, words[k]) {
      ForeignIsNotThere(s, words[k], marks[k]);
    }
  }

  /** No hotel, no way back and no booking is mentioned. */
  predicate IsPlain(message: string) {
    var lower := Text.Lower(message);
    !MentionsHotel(lower) && !MentionsReturn(lower) && !ConfirmsOption(message)
  }

  lemma PlainByMarks(message: string, s: string, hotel: string, back: string, book: string)
    requires Text.Lower(message) == s && |hotel| == 5 && |back| == 4 && |book| == 5
    requires && IsForeign(s, "hotel", hotel[0]) && IsForeign(s, "stay", hotel[1]) && IsForeign(s, "accommodation", hotel[2])
             && IsForeign(s, "room", hotel[3]) && IsForeign(s, "lodging", hotel[4])
    requires && IsForeign(s, "return", back[0]) && IsForeign(s, "back home", back[1])
             && IsForeign(s, "coming back", back[2]) && IsForeign(s, "way back", back[3])
    requires && IsForeign(s, "book", book[0]) && IsForeign(s, "reserve", book[1]) && IsForeign(s, "confirm", book[2])
             && IsForeign(s, "select", book[3]) && IsForeign(s, "take", book[4])
    ensures IsPlain(message)
  {
    hide IsForeign, HasAnyWord;
    ForeignAreNotThere(s, ["hotel", "stay", "accommodation", "room", "lodging"], hotel);
    ForeignAreNotThere(s, ["return", "back home", "coming back", "way back"], back);
    ForeignAreNotThere(s, ["book", "reserve", "confirm", "select", "take"], book);
  }

  // ---- A date alone --------------------------------------------------------------------------------------

  predicate NoLetters(s: string) {
    forall i :: 0 <= i < |s| ==> !IsLetter(s[i])
  }

  ghost predicate Lettered(words: seq<string>) {
    forall k :: 0 <= k < |words| ==> words[k] != "" && IsLetter(words[k][0])
  }

  lemma NoLettersNoWords(s: string, words: seq<string>)
    requires NoLetters(s) && Lettered(words)
    ensures !HasAnyWord(s, words)
    ensures forall i, k :: 0 <= i <= |s| && 0 <= k < |words| ==> !At(s, i, words[k])
  {
    forall i, k | 0 <= i <= |s| && 0 <= k < |words| ensures !At(s, i, words[k]) {
      WordIsThere(s, i, words[k]);
    }
  }

  lemma NoLettersNoWord(s: string, word: string)
    requires NoLetters(s) && word != "" && IsLetter(word[0])
    ensures !HasWord(s, word) && forall i :: 0 <= i <= |s| ==> !At(s, i, word)
  {
    forall i | 0 <= i <= |s| ensures !At(s, i, word) {
      WordIsThere(s, i, word);
    }
  }

  lemma {:induction false} NoLettersNoDirection(s: string, preposition: string, i: nat)
    requires NoLetters(s) && preposition != "" && IsLetter(preposition[0]) && i <= |s|
    ensures FirstCityAfter(s, preposition, i) == None
    decreases |s| - i
  {
    hide CityIn;
    NoLettersNoWords(s, [preposition]);
    assert !At(s, i, [preposition][0]);
    if i < |s| {
      NoLettersNoDirection(s, preposition, i + 1);
    }
  }

  lemma {:induction false} NoLettersNoNumberWord(s: string, i: nat)
    requires NoLetters(s) && i <= |s|
    ensures FirstNumberWord(s, i) == 0
    decreases |s| - i
  {
    NoLettersNoWords(s, NUMBERS);
    assert WhichAt(s, i, NUMBERS) == |NUMBERS|;
    if i < |s| {
      NoLettersNoNumberWord(s, i + 1);
    }
  }

  lemma {:induction false} NoLettersNoHeads(s: string, i: nat)
    requires NoLetters(s) && i <= |s|
    ensures FirstHeadCount(s, i) == None
    decreases |s| - i
  {
    NoLettersNoWords(s, HEADS);
    if i < |s| {
      NoLettersNoHeads(s, i + 1);
    }
  }

  function YearOfDate(date: string): nat
    requires IsoShape(date)
  {
    ToNat(date[..4])
  }

  lemma DateIsItself(message: string)
    requires IsoShape(message)
    ensures Text.Trim(message) == message && Text.Lower(message) == message && NoLetters(message) && |message| == 10
  {
    Text.TrimIsTrimmed(message);
  }

  lemma DateIsRead(message: string, today: int)
    requires IsoShape(message)
    ensures ExtractDate(message, today) == Some(message)
  {
    assert message[0..10] == message;
  }

  lemma DateIsNoParty(message: string)
    requires IsoShape(message)
    ensures ExtractTravelers(message) == 0
  {
    hide *;
    DateIsItself(message);
    NoLettersNoNumberWord(message, 0);
    NoLettersNoHeads(message, 0);
    LongIsNoBareNumber(message);
    assert !HasAnyWord(message, ALONE) by { NoLettersNotAlone(message); }
    NothingSaysHowMany(message);
  }

  lemma NoLettersNotAlone(s: string)
    requires NoLetters(s)
    ensures !HasAnyWord(s, ALONE)
  {
    hide HasAnyWord, NoLetters;
    NoLettersNoWords(s, ALONE);
  }

  lemma NothingSaysHowMany(lower: string)
    requires !HasAnyWord(lower, ALONE) && FirstNumberWord(lower, 0) == 0 && FirstHeadCount(lower, 0) == None
    requires BareNumber(Text.Trim(lower)) == 0
    ensures ExtractTravelers(lower) == 0
  {
    hide HasAnyWord, ContainsAny, FirstNumberWord, FirstHeadCount, BareNumber, Text.Trim;
  }

  lemma LongIsNoBareNumber(s: string)
    requires |s| > 2
    ensures BareNumber(s) == 0
  {
  }

  lemma DateIsNoAirline(message: string)
    requires NoLetters(message)
    ensures ExtractAirline(message) == None
  {
    hide HasAnyWord, HasWord, NoLetters;
    NoLettersNoWords(message, ANY_AIRLINE);
    NoLettersNoWord(message, "helix");
    NoLettersNoWord(message, "skyline");
  }

  /** The year as an amount of money. */
  lemma DateAsAmount(message: string)
    requires IsoShape(message)
    ensures FirstAmount(message, 0) == Some(YearOfDate(message))
  {
    assert AmountDigits(message, 4) == "";
    assert AmountDigits(message, 3) == [message[3]];
    assert AmountDigits(message, 2) == [message[2]] + [message[3]];
    assert AmountDigits(message, 1) == [message[1]] + ([message[2]] + [message[3]]);
    assert AmountDigits(message, 0) == [message[0]] + ([message[1]] + ([message[2]] + [message[3]]));
    assert message[..4] == [message[0]] + ([message[1]] + ([message[2]] + [message[3]]));
  }

  lemma NoWordButAnAmount(lower: string)
    requires !HasAnyWord(lower, NO_LIMIT) && !HasAnyWord(lower, LUXURY) && !HasAnyWord(lower, MODERATE) && !HasAnyWord(lower, CHEAP)
    ensures var amount := FirstAmount(lower, 0);
            ExtractBudget(lower) == if amount.Some? && amount.value >= 1000 then amount else None
  {
    hide HasAnyWord, FirstAmount;
  }

  lemma DateAsBudget(message: string)
    requires IsoShape(message)
    ensures var year := YearOfDate(message); ExtractBudget(message) == if year >= 1000 then Some(year) else None
  {
    hide *;
    DateIsItself(message);
    DateAsAmount(message);
    DateHasNoBudgetWord(message);
    NoWordButAnAmount(message);
  }

  /** All that is read out of a date given alone. Its year is read as a nightly budget too. */
  lemma DateReads(message: string, today: int)
    requires IsoShape(message)
    ensures var year := YearOfDate(message);
            ReadMessage(message, today)
            == Reading(None, None, None, false, Some(message), 0, None, if year >= 1000 then Some(year) else None)
    ensures IsPlain(message)
  {
    hide *;
    DateIsItself(message);
    DateIsNoParty(message);
    DateIsNoAirline(message);
    DateIsRead(message, today);
    DateNamesNothing(message);
    DateAsBudget(message);
    DateHasNoDirection(message);
    NoCityButTheRest(message, today);
  }

  lemma DateHasNoDirection(s: string)
    requires NoLetters(s)
    ensures FirstCityAfter(s, "from", 0) == None && FirstCityAfter(s, "to", 0) == None
  {
    hide NoLetters, FirstCityAfter;
    NoLettersNoDirection(s, "from", 0);
    NoLettersNoDirection(s, "to", 0);
  }

  lemma NoCityButTheRest(message: string, today: int)
    requires Text.Trim(message) == message && Text.Lower(message) == message
    requires FirstCityAfter(message, "from", 0) == None && FirstCityAfter(message, "to", 0) == None
    requires CityIn(message) == None && !Correcting(message)
    ensures ReadMessage(message, today)
         == Reading(None, None, None, false, ExtractDate(message, today), ExtractTravelers(message),
                    ExtractAirline(message), ExtractBudget(message))
  {
    hide CityIn, Correcting, FirstCityAfter, ExtractTravelers, ExtractAirline, ExtractBudget, ExtractDate, Text.Trim, Text.Lower;
  }

  lemma DateNamesNothing(message: string)
    requires NoLetters(message) && Text.Lower(message) == message
    ensures CityIn(message) == None && !Correcting(message) && IsPlain(message)
  {
    hide HasAnyWord, Text.Lower, NoLetters;
    NoLettersNoWords(message, ["tvm", "trivandrum", "thiruvananthapuram"]);
    NoLettersNoWords(message, ["del", "delhi", "new delhi"]);
    NoLettersNoWords(message, ["bom", "bombay", "mumbai"]);
    NoLettersNoWords(message, ["actually", "instead", "change to", "change it to", "make it", "rather", "no,"]);
    NoLettersNoWords(message, ["hotel", "stay", "accommodation", "room", "lodging"]);
    NoLettersNoWords(message, ["return", "back home", "coming back", "way back"]);
    NoLettersNoWords(message, ["book", "reserve", "confirm", "select", "take"]);
  }

  lemma DateHasNoBudgetWord(message: string)
    requires NoLetters(message)
    ensures !HasAnyWord(message, NO_LIMIT) && !HasAnyWord(message, LUXURY) && !HasAnyWord(message, MODERATE) && !HasAnyWord(message, CHEAP)
  {
    hide HasAnyWord, NoLetters;
    NoLettersNoWords(message, NO_LIMIT);
    NoLettersNoWords(message, LUXURY);
    NoLettersNoWords(message, MODERATE);
    NoLettersNoWords(message, CHEAP);
  }

  /** A date given for either leg also settles the hotel budget, unless its year is before 1000: what a night may cost
      is never asked, and hotels are searched up to the year's number. */
  lemma DateSettlesTheBudgetIff(message: string, today: int, p: TripProfile, forReturn: bool)
    requires IsoShape(message) && p.destination.Some? && p.hotelBudget.None?
    ensures var p' := ExtractSlots(ReadMessage(message, today), p, forReturn);
            && (NextHotelQuestion(p') == None <==> YearOfDate(message) >= 1000)
            && (NextHotelQuestion(p') == None ==> p'.hotelBudget == Some(YearOfDate(message)))
  {
    hide ReadMessage, IsoShape, YearOfDate;
    DateReads(message, today);
  }
}
