/** "from X to Y": which way a trip goes, from the words of the message to the arguments of the search. */
module TripDirections {
  import opened Common
  import opened DatePhrases
  import opened DateTexts
  import opened MessageReading
  import opened TripSlots
  import opened TripAnswers
  import opened TripSuggestions
  import Text

  // ---- A preposition and a city ----------------------------------------------------------------------

  /** After position b the phrase is over: the text ends, something that is no word follows, or a word that no city's
      name goes on with. */
  ghost predicate EndsPhrase(s: string, b: nat) {
    b <= |s| &&
    var c := b + Span(s, b, Spaces);
    var d := c + Span(s, c, Letters);
    (b < |s| ==> !IsLetter(s[b])) && (c == b || d == c || s[c..d] in PHRASE_BOUNDARY)
  }

  /** The preposition stands at i, and a city's name from a to b is all there is to its phrase. */
  ghost predicate NamesCity(s: string, i: nat, preposition: string, a: nat, b: nat, city: City) {
    && At(s, i, preposition) && Boundary(s, i) && i + |preposition| < a
    && DateTexts.Run(s, i + |preposition|, a, Spaces) && DateTexts.Run(s, a, b, Letters) && a < b
    && s[a..b] in CITY_NAMES && CITY_NAMES[s[a..b]] == city
    && EndsPhrase(s, b)
  }

  lemma WordAfterBlanks(s: string, i: nat, a: nat, b: nat, n: nat)
    requires i < a < b && DateTexts.Run(s, i, a, Spaces) && DateTexts.Run(s, a, b, Letters) && (b == |s| || !IsLetter(s[b])) && n > 0
    ensures MoreWords(s, i, n) == (MoreWords(s, b, n - 1).0, [s[a..b]] + MoreWords(s, b, n - 1).1)
  {
    hide Text.IsSpace;
    assert InClass(s[a], Letters);
    ClassesApart(s[a]);
    SpanIs(s, i, a - i, Spaces);
    SpanIs(s, a, b - a, Letters);
  }

  lemma NamedWords(s: string, i: nat, preposition: string, a: nat, b: nat, city: City)
    requires NamesCity(s, i, preposition, a, b, city)
    ensures PhraseAt(s, preposition, i).Some?
    ensures PhraseAt(s, preposition, i).value.1 == [s[a..b]] + MoreWords(s, b, 2).1 && UpToBoundary(MoreWords(s, b, 2).1) == []
  {
    hide Text.IsSpace, Boundary, CityIn, At, MoreWords, UpToBoundary, EndsPhrase;
    assert !(b < |s| && IsLetter(s[b])) by { EndsApart(s, b); }
    WordAfterBlanks(s, i + |preposition|, a, b, 1);
    WordAfterBlanks(s, i + |preposition|, a, b, 3);
    PhraseIsOver(s, b);
  }

  lemma EndsApart(s: string, b: nat)
    requires EndsPhrase(s, b)
    ensures b <= |s| && (b < |s| ==> !IsLetter(s[b]))
  {
  }

  lemma PhraseIsOver(s: string, b: nat)
    requires EndsPhrase(s, b)
    ensures UpToBoundary(MoreWords(s, b, 2).1) == []
  {
    hide Text.IsSpace;
  }

  lemma NameAlone(name: string, more: seq<string>)
    requires name in CITY_NAMES && UpToBoundary(more) == []
    ensures CityIn(Join(UpToBoundary([name] + more))) == Some(CITY_NAMES[name])
  {
    NamesAreWords(name);
    NameIsNoBoundary(name);
    OneWordCities(name);
    hide CityIn, OneWord;
    assert ([name] + more)[1..] == more;
  }

  lemma NamedPhrase(s: string, i: nat, preposition: string, a: nat, b: nat, city: City)
    requires NamesCity(s, i, preposition, a, b, city)
    ensures PhraseAt(s, preposition, i).Some?
    ensures CityIn(Join(UpToBoundary(PhraseAt(s, preposition, i).value.1))) == Some(city)
  {
    hide PhraseAt, MoreWords, UpToBoundary, CityIn, Join, At, Boundary, EndsPhrase, DateTexts.Run;
    NamedWords(s, i, preposition, a, b, city);
    NameAlone(s[a..b], MoreWords(s, b, 2).1);
  }

  lemma NameIsNoBoundary(word: string)
    requires word in CITY_NAMES
    ensures word !in PHRASE_BOUNDARY
  {
    if word == "trivandrum" {
    } else if word == "thiruvananthapuram" {
    } else if word == "bombay" {
    } else if word == "mumbai" {
    } else if word == "delhi" {
    }
  }

  /** The first such preposition decides. */
  lemma {:induction false} FirstDirection(s: string, preposition: string, k: nat, i: nat, a: nat, b: nat, city: City)
    requires k <= i && NamesCity(s, i, preposition, a, b, city)
    requires forall j: nat :: k <= j < i ==> !(At(s, j, preposition) && Boundary(s, j))
    ensures k <= |s| && FirstCityAfter(s, preposition, k) == Some(city)
    decreases i - k
  {
    hide Text.IsSpace, Boundary, CityIn, NamesCity, MoreWords, At;
    assert i <= |s| by { NamedFits(s, i, preposition, a, b, city); }
    if k == i {
      NamedPhrase(s, i, preposition, a, b, city);
    } else {
      FirstDirection(s, preposition, k + 1, i, a, b, city);
    }
  }

  lemma NamedFits(s: string, i: nat, preposition: string, a: nat, b: nat, city: City)
    requires NamesCity(s, i, preposition, a, b, city)
    ensures i <= |s|
  {
  }

  /** A message whose first "from" names one city and whose first "to" names another is read as that origin and that
      destination, whatever it says besides. */
  lemma FromToIsRead(message: string, today: int, i: nat, a: nat, b: nat, x: City, j: nat, c: nat, d: nat, y: City)
    requires var s := Text.Lower(Text.Trim(message));
             && NamesCity(s, i, "from", a, b, x) && (forall k: nat :: k < i ==> !(At(s, k, "from") && Boundary(s, k)))
             && NamesCity(s, j, "to", c, d, y) && (forall k: nat :: k < j ==> !(At(s, k, "to") && Boundary(s, k)))
    requires x != y
    ensures ReadMessage(message, today).origin == Some(x) && ReadMessage(message, today).destination == Some(y)
  {
    hide Text.Lower, Text.Trim, NamesCity, At, Boundary, FirstCityAfter, CityIn, Correcting, ExtractDate, ExtractTravelers, ExtractAirline, ExtractBudget;
    var s := Text.Lower(Text.Trim(message));
    FirstDirection(s, "from", 0, i, a, b, x);
    FirstDirection(s, "to", 0, j, c, d, y);
  }

  // ---- Two ways to say it ------------------------------------------------------------------------------

  function Route(x: string, y: string): string {
    "from " + x + " to " + y
  }

  lemma Pieces(before: string, f: string, x: string, t: string, y: string)
    ensures var s := before + (f + x + t + y);
            var (i, j) := (|before|, |before| + |f| + |x|);
            && |s| == j + |t| + |y|
            && s[i..i + |f|] == f && s[i + |f|..j] == x && s[j..j + |t|] == t && s[j + |t|..j + |t| + |y|] == y
            && (forall k :: 0 <= k < i ==> s[k] == before[k])
  {
    var s := before + (f + x + t + y);
    var (i, j) := (|before|, |before| + |f| + |x|);
    assert s[i..] == f + x + t + y;
    assert (f + x + t + y)[|f|..|f| + |x|] == x;
    assert (f + x + t + y)[|f| + |x|..|f| + |x| + |t|] == t;
  }

  lemma FromIsAt(s: string, i: nat)
    requires i + 5 <= |s| && s[i..i + 5] == "from " && (i == 0 || s[i - 1] == ' ')
    ensures At(s, i, "from") && Boundary(s, i) && s[i + 4] == ' '
  {
    assert s[i..i + 4] == s[i..i + 5][..4];
    assert s[i] == s[i..i + 5][0] && s[i + 4] == s[i..i + 5][4];
  }

  lemma ToIsAt(s: string, j: nat)
    requires j + 4 <= |s| && s[j..j + 4] == " to "
    ensures s[j] == ' ' && At(s, j + 1, "to") && Boundary(s, j + 1) && s[j + 3] == ' '
  {
    assert s[j] == s[j..j + 4][0] && s[j + 1] == s[j..j + 4][1] && s[j + 2] == s[j..j + 4][2] && s[j + 3] == s[j..j + 4][3];
    assert s[j + 1..j + 3] == [s[j + 1], s[j + 2]];
  }

  lemma BlankIsRun(s: string, i: nat)
    requires i < |s| && s[i] == ' '
    ensures DateTexts.Run(s, i, i + 1, Spaces)
  {
  }

  /** Where the words of "from X to Y" are, after some text that ends in a blank. */
  lemma RouteParts(before: string, x: string, y: string)
    requires x in CITY_NAMES && y in CITY_NAMES
    requires before == "" || before[|before| - 1] == ' '
    ensures var (s, i) := (before + Route(x, y), |before|);
            var j := i + 6 + |x|;
            && |s| == j + 3 + |y|
            && NamesCity(s, i, "from", i + 5, i + 5 + |x|, CITY_NAMES[x])
            && NamesCity(s, j, "to", j + 3, |s|, CITY_NAMES[y])
            && (forall k :: 0 <= k < i ==> s[k] == before[k])
            && s[i..i + 5] == "from " && s[i + 5..j - 1] == x && s[j - 1..j + 3] == " to "
  {
    hide *;
    RouteIs(x, y);
    Pieces(before, "from ", x, " to ", y);
    PartsOf(before + Route(x, y), |before|, x, y);
  }

  lemma PartsOf(s: string, i: nat, x: string, y: string)
    requires x in CITY_NAMES && y in CITY_NAMES
    requires var j := i + 6 + |x|;
             && |s| == j + 3 + |y| && (i == 0 || s[i - 1] == ' ')
             && s[i..i + 5] == "from " && s[i + 5..j - 1] == x && s[j - 1..j + 3] == " to " && s[j + 3..j + 3 + |y|] == y
    ensures NamesCity(s, i, "from", i + 5, i + 5 + |x|, CITY_NAMES[x])
    ensures NamesCity(s, i + 6 + |x|, "to", i + 9 + |x|, |s|, CITY_NAMES[y])
  {
    hide *;
    var j := i + 6 + |x|;
    NamesAreWords(x);
    NamesAreWords(y);
    WordIsNotEmpty(x);
    WordIsNotEmpty(y);
    FromIsAt(s, i);
    ToIsAt(s, j - 1);
    BlankIsRun(s, i + 4);
    BlankIsRun(s, j + 2);
    WordIsLetters(s, i + 5, x);
    WordIsLetters(s, j + 3, y);
    ToEndsPhrase(s, j - 1);
    EndEndsPhrase(s);
    MakesName(s, i, "from", i + 5, x);
    MakesName(s, j, "to", j + 3, y);
  }

  lemma WordIsNotEmpty(word: string)
    requires OneWord(word)
    ensures word != ""
  {
  }

  lemma RouteIs(x: string, y: string)
    ensures Route(x, y) == "from " + x + " to " + y
  {
  }

  lemma MakesName(s: string, i: nat, preposition: string, a: nat, name: string)
    requires At(s, i, preposition) && Boundary(s, i) && i + |preposition| < a && a + |name| <= |s|
    requires DateTexts.Run(s, i + |preposition|, a, Spaces) && DateTexts.Run(s, a, a + |name|, Letters)
    requires s[a..a + |name|] == name && name in CITY_NAMES && name != "" && EndsPhrase(s, a + |name|)
    ensures NamesCity(s, i, preposition, a, a + |name|, CITY_NAMES[name])
  {
    hide EndsPhrase, At, Boundary, DateTexts.Run;
  }

  lemma WordIsLetters(s: string, i: nat, word: string)
    requires i + |word| <= |s| && s[i..i + |word|] == word && OneWord(word)
    ensures DateTexts.Run(s, i, i + |word|, Letters)
  {
    forall k | i <= k < i + |word| ensures IsLetter(s[k]) {
      assert s[k] == word[k - i];
    }
  }

  lemma ToEndsPhrase(s: string, b: nat)
    requires b + 4 <= |s| && s[b] == ' ' && At(s, b + 1, "to") && s[b + 3] == ' '
    ensures EndsPhrase(s, b)
  {
    assert s[b + 1] == s[b + 1..b + 3][0] && s[b + 2] == s[b + 1..b + 3][1];
    SpanIs(s, b, 1, Spaces);
    SpanIs(s, b + 1, 2, Letters);
  }

  lemma EndEndsPhrase(s: string)
    ensures EndsPhrase(s, |s|)
  {
  }

  lemma NameIsNotTo(word: string)
    requires word in CITY_NAMES
    ensures |word| >= 3 && !(word[0] == 't' && word[1] == 'o')
  {
    if word == "tvm" {
    } else if word == "trivandrum" {
    } else if word == "thiruvananthapuram" {
    } else if word == "bombay" {
    } else if word == "mumbai" {
    } else if word == "delhi" {
    } else if word == "bom" {
    }
  }

  /** Between "from" and the "to" after the city no other "to" starts. */
  lemma NoOtherTo(s: string, i: nat, j: nat, x: string)
    requires i + 5 < j <= |s| && s[i..i + 5] == "from " && s[i + 5..j - 1] == x && s[j - 1] == ' '
    requires OneWord(x) && |x| >= 3 && !(x[0] == 't' && x[1] == 'o')
    ensures forall k: nat :: i <= k < j ==> !(At(s, k, "to") && Boundary(s, k))
  {
    forall k: nat | i <= k < j ensures !(At(s, k, "to") && Boundary(s, k)) {
      FirstLetters(s, k, "to");
      if k < i + 5 {
        assert s[k] == s[i..i + 5][k - i];
      } else if k < j - 1 {
        assert s[k] == x[k - i - 5] && IsLetter(s[k]);
        if k > i + 5 {
          assert s[k - 1] == x[k - i - 6] && IsLetter(s[k - 1]);
        } else {
          assert s[k + 1] == x[1];
        }
      }
    }
  }

  lemma FirstLetters(s: string, k: nat, word: string)
    ensures At(s, k, word) && word != "" ==> k < |s| && s[k] == word[0]
    ensures At(s, k, word) && |word| > 1 ==> k + 1 < |s| && s[k + 1] == word[1]
  {
    if At(s, k, word) && word != "" {
      assert s[k] == s[k..k + |word|][0];
      if |word| > 1 {
        assert s[k + 1] == s[k..k + |word|][1];
      }
    }
  }

  /** "from X to Y", in any case: for any names of two cities, from the one to the other. */
  lemma RouteIsRead(message: string, today: int, x: string, y: string)
    requires Text.Lower(Text.Trim(message)) == Route(x, y)
    requires x in CITY_NAMES && y in CITY_NAMES && CITY_NAMES[x] != CITY_NAMES[y]
    ensures var r := ReadMessage(message, today);
            r.origin == Some(CITY_NAMES[x]) && r.destination == Some(CITY_NAMES[y])
  {
    hide *;
    RouteGoes(x, y);
    BothAreRead(message, today, CITY_NAMES[x], CITY_NAMES[y]);
  }

  lemma RouteGoes(x: string, y: string)
    requires x in CITY_NAMES && y in CITY_NAMES
    ensures var s := Route(x, y);
            FirstCityAfter(s, "from", 0) == Some(CITY_NAMES[x]) && FirstCityAfter(s, "to", 0) == Some(CITY_NAMES[y])
  {
    hide *;
    var s := Route(x, y);
    assert "" + s == s;
    RouteParts("", x, y);
    NamesAreWords(x);
    NameIsNotTo(x);
    NoOtherTo(s, 0, 6 + |x|, x);
    FirstDirection(s, "from", 0, 0, 5, 5 + |x|, CITY_NAMES[x]);
    FirstDirection(s, "to", 0, 6 + |x|, 9 + |x|, |s|, CITY_NAMES[y]);
  }

  // ---- A leading "to" that belongs to the verb ----------------------------------------------------------------

  const WISH := "i want to fly "

  lemma {:induction false} SkipTo(s: string, preposition: string, k: nat, i: nat)
    requires k <= i <= |s| && forall j: nat :: k <= j < i ==> !(At(s, j, preposition) && Boundary(s, j))
    ensures FirstCityAfter(s, preposition, k) == FirstCityAfter(s, preposition, i)
    decreases i - k
  {
    hide CityIn, At, Boundary, MoreWords;
    if k < i {
      SkipTo(s, preposition, k + 1, i);
    }
  }

  lemma WishHasOneTo(s: string, k: nat)
    requires |s| > 14 && s[..14] == WISH && k < 14
    ensures At(s, k, "to") && Boundary(s, k) ==> k == 7
    ensures !At(s, k, "from")
  {
    FirstLetters(s, k, "to");
    FirstLetters(s, k, "from");
    assert s[k] == WISH[k] && (k < 13 ==> s[k + 1] == WISH[k + 1]);
  }

  /** The first phrase: "to fly from X". It names no city, and the next search starts after it. */
  lemma WishPhrase(s: string, x: string)
    requires |s| > 19 + |x| && s[..14] == WISH && s[14..19] == "from " && s[19..19 + |x|] == x && s[19 + |x|] == ' '
    requires OneWord(x)
    ensures PhraseAt(s, "to", 7) == Some((19 + |x|, ["fly", "from", x]))
  {
    hide Text.IsSpace;
    WishLetters(s, x);
    WordAfterBlanks(s, 9, 10, 13, 1);
    WordAfterBlanks(s, 9, 10, 13, 3);
    WordAfterBlanks(s, 13, 14, 18, 2);
    WordAfterBlanks(s, 18, 19, 19 + |x|, 1);
    assert s[10..13] == "fly" && s[14..18] == "from";
    assert ["fly"] + (["from"] + ([x] + [])) == ["fly", "from", x];
    assert MoreWords(s, 9, 3).1 == ["fly", "from", x];
  }

  lemma WishLetters(s: string, x: string)
    requires |s| > 19 + |x| && s[..14] == WISH && s[14..19] == "from " && s[19..19 + |x|] == x && s[19 + |x|] == ' '
    requires OneWord(x)
    ensures At(s, 7, "to") && Boundary(s, 7)
    ensures DateTexts.Run(s, 9, 10, Spaces) && DateTexts.Run(s, 10, 13, Letters) && !IsLetter(s[13])
    ensures DateTexts.Run(s, 13, 14, Spaces) && DateTexts.Run(s, 14, 18, Letters) && !IsLetter(s[18])
    ensures DateTexts.Run(s, 18, 19, Spaces) && DateTexts.Run(s, 19, 19 + |x|, Letters) && !IsLetter(s[19 + |x|])
    ensures s[10..13] == "fly" && s[14..18] == "from"
  {
    forall k | 0 <= k < 14 ensures s[k] == WISH[k] {
      assert s[k] == s[..14][k];
    }
    forall k | 14 <= k < 19 ensures s[k] == "from "[k - 14] {
      assert s[k] == s[14..19][k - 14];
    }
    assert s[7..9] == "to";
    WordIsLetters(s, 19, x);
  }

  /** "I want to fly from X to Y": the "to" of the verb is passed over. */
  lemma WishIsRead(message: string, today: int, x: string, y: string)
    requires Text.Lower(Text.Trim(message)) == WISH + Route(x, y)
    requires x in CITY_NAMES && y in CITY_NAMES && CITY_NAMES[x] != CITY_NAMES[y]
    ensures var r := ReadMessage(message, today);
            r.origin == Some(CITY_NAMES[x]) && r.destination == Some(CITY_NAMES[y])
  {
    hide *;
    WishGoes(x, y);
    BothAreRead(message, today, CITY_NAMES[x], CITY_NAMES[y]);
  }

  lemma BothAreRead(message: string, today: int, x: City, y: City)
    requires var s := Text.Lower(Text.Trim(message));
             FirstCityAfter(s, "from", 0) == Some(x) && FirstCityAfter(s, "to", 0) == Some(y) && x != y
    ensures ReadMessage(message, today).origin == Some(x) && ReadMessage(message, today).destination == Some(y)
  {
    hide Text.Lower, Text.Trim, FirstCityAfter, CityIn, Correcting, ExtractDate, ExtractTravelers, ExtractAirline, ExtractBudget;
  }

  lemma WishEndsInABlank()
    ensures |WISH| == 14 && WISH[13] == ' '
  {
  }

  lemma WishGoes(x: string, y: string)
    requires x in CITY_NAMES && y in CITY_NAMES
    ensures var s := WISH + Route(x, y);
            FirstCityAfter(s, "from", 0) == Some(CITY_NAMES[x]) && FirstCityAfter(s, "to", 0) == Some(CITY_NAMES[y])
  {
    hide *;
    var s, j := WISH + Route(x, y), 20 + |x|;
    WishEndsInABlank();
    RouteParts(WISH, x, y);
    NamesAreWords(x);
    assert s[..14] == WISH;
    forall k: nat | k < 14 ensures !At(s, k, "from") && (k < 7 ==> !(At(s, k, "to") && Boundary(s, k))) {
      WishHasOneTo(s, k);
    }
    FirstDirection(s, "from", 0, 14, 19, 19 + |x|, CITY_NAMES[x]);
    WishPhrase(s, x);
    SkipTo(s, "to", 0, 7);
    FlyIsNoCity(s, x);
    assert s[j - 1] == ' ' by { assert s[j - 1] == s[j - 1..j + 3][0]; }
    FirstLetters(s, j - 1, "to");
    FirstDirection(s, "to", j - 1, j, j + 3, |s|, CITY_NAMES[y]);
  }

  lemma FlyIsNoCity(s: string, x: string)
    requires 7 <= |s| && PhraseAt(s, "to", 7) == Some((19 + |x|, ["fly", "from", x]))
    ensures FirstCityAfter(s, "to", 7) == FirstCityAfter(s, "to", 19 + |x|)
  {
    hide CityIn, PhraseAt;
    assert UpToBoundary(["fly", "from", x]) == ["fly"] by { assert ["fly", "from", x][1..] == ["from", x]; }
    OneWordCities("fly");
  }

  // ---- The search -------------------------------------------------------------------------------------------

  /** What the search asks for, said slot by slot: out on the departure date, back the other way on the return date, or
      a hotel where the trip goes. One traveller, any airline and no limit stand for what was not said. */
  ghost predicate IsSearchFor(search: Search, track: Track, p: TripProfile) {
    var party := if p.travelers.Some? then p.travelers.value else 1;
    var airline := if p.airlinePreference.Some? then p.airlinePreference.value else "any";
    match search
    case SearchFlights(origin, destination, date, travelers, carrier) =>
      && (track == Flight || track == Return)
      && p.origin == Some(if track == Flight then origin else destination)
      && p.destination == Some(if track == Flight then destination else origin)
      && (if track == Flight then p.departureDate else p.returnDate) == Some(date)
      && travelers == party && carrier == airline
    case SearchHotels(city, maxNightlyRate, guests) =>
      && track == Hotel
      && p.destination == Some(city)
      && p.hotelBudget == Some(maxNightlyRate)
      && guests == party
  }

  /** Whatever the request, a search is for the trip the request leaves, on the leg it answers. */
  lemma SearchIsForTheTrip(message: string, today: int, p: TripProfile, answering: bool, asked: Option<Track>)
    ensures var (p', reply) := Planned(message, today, p, answering, asked);
            reply.RunSearch? ==> IsSearchFor(reply.search, reply.track, p')
  {
    hide ReadMessage, ExtractSlots, MentionsHotel, MentionsReturn, ConfirmsOption, WantsFlight, Text.Lower, Text.Trim;
  }

  lemma {:induction false} TappedSearchIsForTheTrip(p: TripProfile, track: Track, taps: seq<Tap>)
    requires taps != []
    ensures var (p', reply) := TapThrough(p, track, taps);
            reply.RunSearch? ==> IsSearchFor(reply.search, reply.track, p')
    decreases |taps|
  {
    hide Planned, IsSearchFor;
    SearchIsForTheTrip(taps[0].message, taps[0].today, p, true, Some(track));
    var (p', reply) := Planned(taps[0].message, taps[0].today, p, true, Some(track));
    if |taps| > 1 && reply.Ask? {
      TappedSearchIsForTheTrip(p', reply.track, taps[1..]);
    }
  }

  // ---- From the words to the search ----------------------------------------------------------------------------

  lemma {:induction false} LacksDirection(s: string, preposition: string, mark: char, i: nat)
    requires mark in preposition && mark !in s && i <= |s|
    ensures FirstCityAfter(s, preposition, i) == None
    decreases |s| - i
  {
    hide CityIn;
    WordIsThere(s, i, preposition);
    if i < |s| {
      LacksDirection(s, preposition, mark, i + 1);
    }
  }

  /** No city is named, with or without a preposition. */
  predicate NamesNoCity(lower: string) {
    CityIn(lower) == None && FirstCityAfter(lower, "from", 0) == None && FirstCityAfter(lower, "to", 0) == None
  }

  /** Letters that some word of each list cannot do without. */
  lemma NoCityByMarks(s: string, home: char, from: char, to: char)
    requires home == 'm' || home == 'v'
    requires home !in s && 'd' !in s && 'b' !in s && from in "from" && from !in s && to in "to" && to !in s
    ensures NamesNoCity(s)
  {
    LacksDirection(s, "from", from, 0);
    LacksDirection(s, "to", to, 0);
    hide HasAnyWord, FirstCityAfter;
    HomeByMark(s, home);
    ForeignAreNotThere(s, ["del", "delhi", "new delhi"], "ddd");
    BombayByMark(s);
  }

  lemma HomeByMark(s: string, home: char)
    requires (home == 'm' || home == 'v') && home !in s
    ensures !HasAnyWord(s, ["tvm", "trivandrum", "thiruvananthapuram"])
  {
    hide HasAnyWord;
    ForeignAreNotThere(s, ["tvm", "trivandrum", "thiruvananthapuram"], [home, home, home]);
  }

  lemma BombayByMark(s: string)
    requires 'b' !in s
    ensures !HasAnyWord(s, ["bom", "bombay", "mumbai"])
  {
    hide HasAnyWord;
    ForeignAreNotThere(s, ["bom", "bombay", "mumbai"], "bbb");
  }

  lemma PartiesNameNoCity()
    ensures NamesNoCity("just me") && NamesNoCity("2 travellers") && NamesNoCity("3 travellers")
  {
    hide NamesNoCity;
    NoCityByMarks("just me", 'v', 'o', 'o');
    NoCityByMarks("2 travellers", 'm', 'o', 'o');
    NoCityByMarks("3 travellers", 'm', 'o', 'o');
  }

  lemma AirlinesNameNoCity()
    ensures NamesNoCity("helix air") && NamesNoCity("skyline") && NamesNoCity("no preference")
  {
    hide NamesNoCity;
    NoCityByMarks("helix air", 'v', 'o', 'o');
    NoCityByMarks("skyline", 'v', 'o', 'o');
    NoCityByMarks("no preference", 'v', 'm', 't');
  }

  lemma NoCityKeepsRoute(message: string, today: int, p: TripProfile, forReturn: bool)
    requires NamesNoCity(Text.Lower(Text.Trim(message)))
    ensures var p' := ExtractSlots(ReadMessage(message, today), p, forReturn);
            p'.origin == p.origin && p'.destination == p.destination
  {
    hide Text.Lower, Text.Trim, FirstCityAfter, CityIn, Correcting, ExtractDate, ExtractTravelers, ExtractAirline, ExtractBudget;
  }

  /** Once both ends are known, the answers offered on the way out change neither. */
  lemma TapKeepsRoute(p: TripProfile, tap: Tap)
    requires p.origin.Some? && p.destination.Some? && NextQuestion(Flight, p).Some? && AreOffered(p, Flight, [tap])
    ensures var p' := Heard(p, Flight, Said(tap.message, tap.today));
            p'.origin == p.origin && p'.destination == p.destination
  {
    hide Text.Lower, Text.Trim, ReadMessage, IsAnswer, IsoShape, NamesNoCity, DaysOn;
    var slot := NextQuestion(Flight, p).value;
    assert [tap][0] == tap;
    if slot == DepartureDate {
      DateReads(tap.message, tap.today);
    } else {
      OfferedNamesNoCity(p, slot, tap);
      NoCityKeepsRoute(tap.message, tap.today, p, false);
    }
  }

  lemma OfferedNamesNoCity(p: TripProfile, slot: Slot, tap: Tap)
    requires slot == Travelers || slot == Airline
    requires tap.message in Suggestions(slot, p, tap.offered)
    ensures NamesNoCity(Text.Lower(Text.Trim(tap.message)))
  {
    hide Text.Lower, Text.Trim, NamesNoCity, IsAnswer, ExtractTravelers, ExtractAirline, DaysOn;
    if slot == Travelers {
      Parties();
      PartiesNameNoCity();
    } else {
      Airlines();
      AirlinesNameNoCity();
    }
    AnswerIsAsGiven(tap.message);
  }

  /** Tapping on from where both ends are known ends in the search of flights between them, that way round. */
  lemma {:induction false} TappingSearchesTheRoute(p: TripProfile, taps: seq<Tap>)
    requires p.origin.Some? && p.destination.Some? && NextQuestion(Flight, p).Some?
    requires AreOffered(p, Flight, taps) && |taps| >= MissingCount(Flight, p) && taps != []
    ensures var (p', reply) := TapThrough(p, Flight, taps);
            && reply.RunSearch? && reply.track == Flight && reply.search.SearchFlights?
            && reply.search.origin == p.origin.value && reply.search.destination == p.destination.value
            && p'.departureDate == Some(reply.search.departureDate)
    decreases |taps|
  {
    TappingReachesASearch(p, Flight, taps);
    TappedSearchIsForTheTrip(p, Flight, taps);
    TappingKeepsRoute(p, taps);
    hide TapThrough, AreOffered, MissingCount;
  }

  lemma {:induction false} TappingKeepsRoute(p: TripProfile, taps: seq<Tap>)
    requires p.origin.Some? && p.destination.Some? && NextQuestion(Flight, p).Some?
    requires AreOffered(p, Flight, taps) && taps != []
    ensures var p' := TapThrough(p, Flight, taps).0; p'.origin == p.origin && p'.destination == p.destination
    decreases |taps|
  {
    hide Planned, Heard, NextQuestion, Suggestions, IsoShape, IsAnswer, Text.Lower, SearchFor;
    var tap := taps[0];
    var p' := Heard(p, Flight, Said(tap.message, tap.today));
    assert AreOffered(p, Flight, [tap]);
    TapKeepsRoute(p, tap);
    SuggestionFillsIff(Flight, p, tap.message, tap.offered, tap.today);
    AnswerKeepsTrack(p, Flight, tap.message, tap.today);
    if |taps| > 1 && NextQuestion(Flight, p').Some? {
      TappingKeepsRoute(p', taps[1..]);
    }
  }

  predicate SearchesRoute(reply: Reply, x: City, y: City) {
    reply.RunSearch? && reply.track == Flight && reply.search.SearchFlights? && reply.search.origin == x && reply.search.destination == y
  }

  /** A message that says from X to Y and nothing of hotels, returns or bookings, in answer to a question about the way
      out: it is searched at once if nothing else is missing; else the next question is asked. */
  lemma SaidRouteIsTaken(message: string, today: int, p: TripProfile, x: City, y: City)
    requires IsAnswer(message, Text.Lower(message))
    requires ReadMessage(message, today).origin == Some(x) && ReadMessage(message, today).destination == Some(y)
    ensures var p' := Heard(p, Flight, Said(message, today));
            var (after, reply) := Planned(message, today, p, true, Some(Flight));
            && after == p' && p'.origin == Some(x) && p'.destination == Some(y)
            && if NextQuestion(Flight, p').Some? then reply == Ask(NextQuestion(Flight, p').value, Flight) else SearchesRoute(reply, x, y)
  {
    hide Planned, Heard, NextQuestion, IsAnswer, ReadMessage, SearchFor, Text.Lower;
    AnswerKeepsTrack(p, Flight, message, today);
    SearchIsForTheTrip(message, today, p, true, Some(Flight));
    BothEndsAreTaken(message, today, p, x, y);
  }

  /** End to end: from there, tapping what is offered ends in the search of flights from X to Y, on the date the trip
      then has. */
  lemma SaidRouteIsSearched(said: Said, p: TripProfile, taps: seq<Tap>, x: City, y: City)
    requires ReadMessage(said.message, said.today).origin == Some(x) && ReadMessage(said.message, said.today).destination == Some(y)
    requires NextQuestion(Flight, Heard(p, Flight, said)).Some? && taps != []
    requires AreOffered(Heard(p, Flight, said), Flight, taps) && |taps| >= MissingCount(Flight, Heard(p, Flight, said))
    ensures var (p', reply) := TapThrough(Heard(p, Flight, said), Flight, taps);
            SearchesRoute(reply, x, y) && p'.departureDate == Some(reply.search.departureDate)
  {
    hide Planned, Heard, NextQuestion, TapThrough, AreOffered, MissingCount, ReadMessage;
    BothEndsAreTaken(said.message, said.today, p, x, y);
    TappingSearchesTheRoute(Heard(p, Flight, said), taps);
  }

  lemma BothEndsAreTaken(message: string, today: int, p: TripProfile, x: City, y: City)
    requires ReadMessage(message, today).origin == Some(x) && ReadMessage(message, today).destination == Some(y)
    ensures var p' := Heard(p, Flight, Said(message, today)); p'.origin == Some(x) && p'.destination == Some(y)
  {
    hide ReadMessage;
  }
}
