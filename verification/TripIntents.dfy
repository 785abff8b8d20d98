/** Which messages start gathering and which go to booking: the examples the agent was made for, and the rule behind them. */
module TripIntents {
  import opened Common
  import opened DatePhrases
  import opened MessageReading
  import opened TripSlots
  import opened TripAnswers
  import opened TripSuggestions
  import opened TripDirections
  import Text

  /** Without a digit no concrete offer is named, so nothing is confirmed. */
  lemma NoOfferWithoutADigit(message: string)
    requires NoDigits(message)
    ensures !ConfirmsOption(message)
  {
    var lower := Text.Lower(message);
    forall i | 0 <= i <= |message| ensures !FlightNumberAt(message, i) && !HotelOfferAt(lower, i) && !OptionAt(lower, i) {
      NoDigitSpan(message);
      NoDigitSpan(lower);
    }
  }

  lemma NoDigitSpan(s: string)
    requires NoDigits(s)
    ensures forall i :: 0 <= i <= |s| ==> Span(s, i, Digits) == 0
  {
  }

  /** A booking word and a flight number go to booking, whatever is still missing and whatever was asked. */
  lemma NamedFlightIsBooked(message: string, today: int, p: TripProfile, answering: bool, asked: Option<Track>, word: string, i: nat)
    requires Text.Trim(message) == message && message != ""
    requires word in ["book", "reserve", "confirm", "select", "take"] && HasWord(Text.Lower(message), word)
    requires i <= |message| && FlightNumberAt(message, i)
    ensures Planned(message, today, p, answering, asked).1 == Unplanned
  {
    hide HasWord, ReadMessage, ExtractSlots, ResolveTrack, FlightNumberAt, HotelOfferAt, OptionAt, Text.Lower, Text.Trim, NextQuestion, SearchFor, WantsFlight;
    var words := ["book", "reserve", "confirm", "select", "take"];
    var k :| 0 <= k < |words| && words[k] == word;
    assert HasAnyWord(Text.Lower(message), words);
  }

  const BOOK_HA733 := "Yes, book flight HA733"

  lemma BookHa733Reads()
    ensures Text.Lower(BOOK_HA733) == "yes, book flight ha733" && Text.Trim(BOOK_HA733) == BOOK_HA733
  {
    hide Text.Lower, Text.Trim;
    LowerIs(BOOK_HA733, "yes, book flight ha733");
  }

  lemma BookIsSaid()
    ensures HasWord("yes, book flight ha733", "book")
  {
    var s := "yes, book flight ha733";
    assert s[5..9] == "book";
    assert At(s, 5, "book") && Boundary(s, 5) && Boundary(s, 9);
  }

  lemma Ha733IsAFlight()
    ensures FlightNumberAt(BOOK_HA733, 17)
  {
    var s := BOOK_HA733;
    assert s[17] == 'H' && s[18] == 'A' && s[19] == '7' && s[20] == '3' && s[21] == '3';
    assert Span(s, 22, Digits) == 0 && Span(s, 21, Digits) == 1 && Span(s, 20, Digits) == 2 && Span(s, 19, Digits) == 3;
    assert s[16] == ' ' && Boundary(s, 17) && Boundary(s, 22);
  }

  /** "Yes, book flight HA733" never searches again. */
  lemma BookHa733IsBooked(today: int, p: TripProfile, answering: bool, asked: Option<Track>)
    ensures Planned(BOOK_HA733, today, p, answering, asked).1 == Unplanned
  {
    hide *;
    BookHa733Reads();
    BookIsSaid();
    Ha733IsAFlight();
    BookHa733IsLong();
    BookIsABookingWord();
    NamedFlightIsBooked(BOOK_HA733, today, p, answering, asked, "book", 17);
  }

  lemma BookHa733IsLong()
    ensures |BOOK_HA733| == 22 && BOOK_HA733 != ""
  {
  }

  lemma BookIsABookingWord()
    ensures "book" in ["book", "reserve", "confirm", "select", "take"]
  {
    assert ["book", "reserve", "confirm", "select", "take"][0] == "book";
  }

  const BOOK_RETURN := "Book my return flight"

  /** "Book my return flight" starts gathering for the way back: a booking word alone confirms nothing. */
  lemma BookReturnStartsGathering(today: int, p: TripProfile, answering: bool, asked: Option<Track>)
    ensures var reply := Planned(BOOK_RETURN, today, p, answering, asked).1;
            (reply.Ask? || reply.RunSearch?) && reply.track == Return
  {
    hide *;
    BookReturnReads();
    BookReturnIsForTheReturn();
    NoOfferWithoutADigit(BOOK_RETURN);
    ReturnGathers(BOOK_RETURN, today, p, answering, asked);
  }

  lemma ReturnGathers(message: string, today: int, p: TripProfile, answering: bool, asked: Option<Track>)
    requires message != "" && Text.Trim(message) == message && !ConfirmsOption(message)
    requires !MentionsHotel(Text.Lower(message)) && MentionsReturn(Text.Lower(message))
    ensures var reply := Planned(message, today, p, answering, asked).1;
            (reply.Ask? || reply.RunSearch?) && reply.track == Return
  {
    hide MentionsHotel, MentionsReturn, ConfirmsOption, ReadMessage, ExtractSlots, NextQuestion, SearchFor, Text.Trim, Text.Lower, WantsFlight;
  }

  lemma BookReturnReads()
    ensures Text.Lower(BOOK_RETURN) == "book my return flight" && Text.Trim(BOOK_RETURN) == BOOK_RETURN
    ensures BOOK_RETURN != "" && NoDigits(BOOK_RETURN)
  {
    hide Text.Lower, Text.Trim;
    LowerIs(BOOK_RETURN, "book my return flight");
  }

  lemma BookReturnIsForTheReturn()
    ensures !MentionsHotel("book my return flight") && MentionsReturn("book my return flight")
  {
    var s := "book my return flight";
    ReturnIsSaid();
    hide HasWord;
    assert ["return", "back home", "coming back", "way back"][0] == "return";
    assert MentionsReturn(s);
    NoHotelThere(s);
  }

  lemma NoHotelThere(s: string)
    requires s == "book my return flight"
    ensures !MentionsHotel(s)
  {
    ForeignIsNotThere(s, "stay", 's');
    ForeignIsNotThere(s, "accommodation", 'a');
    ForeignIsNotThere(s, "lodging", 'd');
    hide HasWord;
    HotelAndRoomAreNotThere(s);
  }

  lemma HotelAndRoomAreNotThere(s: string)
    requires s == "book my return flight"
    ensures !HasWord(s, "hotel") && !HasWord(s, "room")
  {
    BeginsNowhere(s, "hotel");
    BeginsNowhere(s, "room");
  }

  /** Its first two letters never follow each other in the text. */
  lemma BeginsNowhere(s: string, word: string)
    requires |word| > 1 && forall i :: 0 <= i < |s| - 1 ==> !(s[i] == word[0] && s[i + 1] == word[1])
    ensures !HasWord(s, word)
  {
    forall i: nat | i <= |s| ensures !At(s, i, word) {
      FirstLetters(s, i, word);
    }
  }

  lemma ReturnIsSaid()
    ensures HasWord("book my return flight", "return")
  {
    var s := "book my return flight";
    assert s[8..14] == "return";
    assert At(s, 8, "return") && Boundary(s, 8) && Boundary(s, 14);
  }

  const PLAN_A_TRIP := "Plan a trip"

  /** "Plan a trip" asks where to, although it names no flight. */
  lemma PlanATripAsksWhereTo(today: int, asked: Option<Track>)
    ensures Planned(PLAN_A_TRIP, today, EMPTY, false, asked).1 == Ask(Destination, Flight)
  {
    hide *;
    PlanATripReads();
    PlanATripIsForATrip();
    NoOfferWithoutADigit(PLAN_A_TRIP);
    TripGathers(PLAN_A_TRIP, today, asked);
  }

  lemma TripGathers(message: string, today: int, asked: Option<Track>)
    requires message != "" && Text.Trim(message) == message && !ConfirmsOption(message)
    requires !MentionsHotel(Text.Lower(message)) && !MentionsReturn(Text.Lower(message)) && WantsFlight(Text.Lower(message))
    requires NamesNoCity(Text.Lower(message))
    ensures Planned(message, today, EMPTY, false, asked).1 == Ask(Destination, Flight)
  {
    NoCityKeepsRoute(message, today, EMPTY, false);
    hide MentionsHotel, MentionsReturn, ConfirmsOption, ReadMessage, ExtractSlots, SearchFor, Text.Trim, Text.Lower, WantsFlight, NamesNoCity;
  }

  lemma PlanATripReads()
    ensures Text.Lower(PLAN_A_TRIP) == "plan a trip" && Text.Trim(PLAN_A_TRIP) == PLAN_A_TRIP
    ensures PLAN_A_TRIP != "" && NoDigits(PLAN_A_TRIP)
  {
    hide Text.Lower, Text.Trim;
    LowerIs(PLAN_A_TRIP, "plan a trip");
  }

  lemma PlanATripIsForATrip()
    ensures !MentionsHotel("plan a trip") && !MentionsReturn("plan a trip") && WantsFlight("plan a trip") && NamesNoCity("plan a trip")
  {
    hide *;
    NoCityInATrip();
    PlanIsSaid();
    NoHotelInATrip();
    NoReturnInATrip();
  }

  lemma NoCityInATrip()
    ensures NamesNoCity("plan a trip")
  {
    hide NamesNoCity;
    NoCityByMarks("plan a trip", 'v', 'o', 'o');
  }

  lemma NoHotelInATrip()
    ensures !MentionsHotel("plan a trip")
  {
    hide HasAnyWord;
    ForeignAreNotThere("plan a trip", ["hotel", "stay", "accommodation", "room", "lodging"], "hsooo");
  }

  lemma NoReturnInATrip()
    ensures !MentionsReturn("plan a trip")
  {
    hide HasAnyWord;
    ForeignAreNotThere("plan a trip", ["return", "back home", "coming back", "way back"], "ebbb");
  }

  lemma PlanIsSaid()
    ensures WantsFlight("plan a trip")
  {
    var s := "plan a trip";
    assert s[0..4] == "plan";
    assert At(s, 0, "plan") && Boundary(s, 0) && Boundary(s, 4);
    assert HasWord(s, "plan");
    hide HasWord;
    var words := ["flight", "fly", "flights", "airline", "air",
                  "trip", "travel", "travelling", "traveling", "journey", "vacation", "holiday", "getaway", "plan"];
    assert words[13] == "plan";
  }
}
