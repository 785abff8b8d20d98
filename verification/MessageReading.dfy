/** What the travel agent reads out of one message: cities, corrections, a date, travellers, an airline, a budget,
    and whether it confirms an offered option. */
module MessageReading {
  import opened Common
  import opened DatePhrases
  import Text

  // ---- Cities ------------------------------------------------------------------------------

  datatype City = TVM | DEL | BOM

  /** A whole word (or fixed phrase) of lower-case text. */
  predicate HasWord(s: string, word: string) {
    exists i :: 0 <= i <= |s| && At(s, i, word) && Boundary(s, i) && Boundary(s, i + |word|)
  }

  predicate HasAnyWord(s: string, words: seq<string>) {
    exists k :: 0 <= k < |words| && HasWord(s, words[k])
  }

  /** The first city of the table that the text names. */
  function CityIn(s: string): Option<City> {
    if HasAnyWord(s, ["tvm", "trivandrum", "thiruvananthapuram"]) then Some(TVM)
    else if HasAnyWord(s, ["del", "delhi", "new delhi"]) then Some(DEL)
    else if HasAnyWord(s, ["bom", "bombay", "mumbai"]) then Some(BOM)
    else None
  }

  const PHRASE_BOUNDARY := [
    "to", "from", "on", "for", "next", "this", "in", "at", "with", "and", "departing", "leaving", "returning", "flying"]

  /** Up to `n` further words, each after white space: where the repetition stops, and the words. */
  function MoreWords(s: string, i: nat, n: nat): (r: (nat, seq<string>))
    requires i <= |s|
    ensures i <= r.0 <= |s|
    decreases n
  {
    var j := i + Span(s, i, Spaces);
    var k := j + Span(s, j, Letters);
    if n == 0 || j == i || k == j then (i, [])
    else
      var (end, words) := MoreWords(s, k, n - 1);
      (end, [s[j..k]] + words)
  }

  /** `\b<preposition>\s+([a-z]+(?:\s+[a-z]+){0,2})` at position i: at most three words. */
  function PhraseAt(s: string, preposition: string, i: nat): (r: Option<(nat, seq<string>)>)
    requires i <= |s|
    ensures r.Some? ==> i + |preposition| < r.value.0 <= |s|
  {
    if At(s, i, preposition) && Boundary(s, i) && MoreWords(s, i + |preposition|, 1).1 != [] then
      Some(MoreWords(s, i + |preposition|, 3))
    else None
  }

  function UpToBoundary(words: seq<string>): seq<string> {
    if words == [] || words[0] in PHRASE_BOUNDARY then [] else [words[0]] + UpToBoundary(words[1..])
  }

  function Join(words: seq<string>): string {
    if words == [] then "" else if |words| == 1 then words[0] else words[0] + " " + Join(words[1..])
  }

  /** Scans phrase after phrase, each search starting where the last match ended. */
  function FirstCityAfter(s: string, preposition: string, i: nat): Option<City>
    requires i <= |s|
    decreases |s| - i
  {
    match PhraseAt(s, preposition, i)
    case Some((end, words)) =>
      var city := CityIn(Join(UpToBoundary(words)));
      if city.Some? then city else FirstCityAfter(s, preposition, end)
    case None => if i < |s| then FirstCityAfter(s, preposition, i + 1) else None
  }

  method FirstCityAfterByScan(s: string, preposition: string) returns (r: Option<City>)
    ensures r == FirstCityAfter(s, preposition, 0)
  {
    hide CityIn, PhraseAt;
    var i := 0;
    while true
      invariant 0 <= i <= |s| && FirstCityAfter(s, preposition, i) == FirstCityAfter(s, preposition, 0)
      decreases |s| - i
    {
      var phrase := PhraseAt(s, preposition, i);
      if phrase.Some? {
        var words: seq<string> := [];
        var k := 0;
        while k < |phrase.value.1| && phrase.value.1[k] !in PHRASE_BOUNDARY
          invariant 0 <= k <= |phrase.value.1| && UpToBoundary(phrase.value.1) == words + UpToBoundary(phrase.value.1[k..])
        {
          words := words + [phrase.value.1[k]];
          k := k + 1;
        }
        assert UpToBoundary(phrase.value.1) == words;
        var city := CityIn(Join(words));
        if city.Some? {
          return city;
        }
        i := phrase.value.0;
      } else {
        if i == |s| {
          return None;
        }
        i := i + 1;
      }
    }
  }

  // ---- Travellers -----------------------------------------------------------------------------

  predicate WordAt(s: string, i: nat, word: string) {
    i + |word| <= |s| && At(s, i, word) && Boundary(s, i) && Boundary(s, i + |word|)
  }

  /** The first of the words that is at position i; their number if none is. */
  function WhichAt(s: string, i: nat, words: seq<string>): (k: nat)
    ensures k <= |words| && (k < |words| ==> WordAt(s, i, words[k]))
  {
    if words == [] || WordAt(s, i, words[0]) then 0 else 1 + WhichAt(s, i, words[1..])
  }

  predicate Contains(s: string, word: string) {
    exists i :: 0 <= i <= |s| && At(s, i, word)
  }

  predicate ContainsAny(s: string, words: seq<string>) {
    exists k :: 0 <= k < |words| && Contains(s, words[k])
  }

  const ALONE := ["just me", "solo", "myself", "only me", "alone"]
  const NUMBERS := ["one", "two", "three", "four", "five", "six"]
  const PARTY := ["people", "person", "traveler", "traveller", "adult", "of us", "passenger"]
  const HEADS := [
    "people", "person", "persons", "traveler", "travelers", "traveller", "travellers", "adult", "adults",
    "guest", "guests", "passenger", "passengers", "of us"]

  /** The first `\b(one|two|three|four|five|six)\b`, as a number; 0 if there is none. */
  function FirstNumberWord(s: string, i: nat): nat
    requires i <= |s|
    decreases |s| - i
  {
    var k := WhichAt(s, i, NUMBERS);
    if k < |NUMBERS| then k + 1 else if i < |s| then FirstNumberWord(s, i + 1) else 0
  }

  /** `\b(\d{1,2})\s*(?:people|persons?|...)\b` at position i. */
  function HeadCountAt(s: string, i: nat): Option<nat>
    requires i <= |s|
  {
    var d := Span(s, i, Digits);
    var j := i + d + Span(s, i + d, Spaces);
    if 1 <= d <= 2 && Boundary(s, i) && exists k :: 0 <= k < |HEADS| && At(s, j, HEADS[k]) && Boundary(s, j + |HEADS[k]|)
    then Some(ToNat(s[i..i + d])) else None
  }

  function FirstHeadCount(s: string, i: nat): Option<nat>
    requires i <= |s|
    decreases |s| - i
  {
    if HeadCountAt(s, i).Some? then HeadCountAt(s, i) else if i < |s| then FirstHeadCount(s, i + 1) else None
  }

  /** `^(\d{1,2})$`, or 0. */
  function BareNumber(s: string): nat {
    if 1 <= |s| <= 2 && Span(s, 0, Digits) == |s| then ToNat(s) else 0
  }

  /** How many travel; 0 when the message does not say. */
  function ExtractTravelers(lower: string): nat {
    var word, trimmed := FirstNumberWord(lower, 0), Text.Trim(lower);
    if HasAnyWord(lower, ALONE) then 1
    else if word != 0 && (ContainsAny(lower, PARTY) || trimmed in NUMBERS) then word
    else if FirstHeadCount(lower, 0).Some? then FirstHeadCount(lower, 0).value
    else BareNumber(trimmed)
  }

  // ---- Airline and budget -------------------------------------------------------------------------

  const ANY_AIRLINE := ["no preference", "any airline", "any carrier", "doesn't matter", "doesnt matter", "no pref", "any"]

  /** `\bhelix\s*air\b` at position i. */
  predicate HelixAirAt(s: string, i: nat) {
    && At(s, i, "helix") && Boundary(s, i)
    && var j := i + 5 + Span(s, i + 5, Spaces); At(s, j, "air") && Boundary(s, j + 3)
  }

  function ExtractAirline(lower: string): Option<string> {
    if HasAnyWord(lower, ANY_AIRLINE) then Some("any")
    else if exists i :: 0 <= i <= |lower| && HelixAirAt(lower, i) then Some("Helix Air")
    else if HasWord(lower, "skyline") then Some("Skyline")
    else None
  }

  const NO_LIMIT := ["no budget", "any budget", "no limit", "doesn't matter", "doesnt matter"]
  const LUXURY := ["luxury", "premium", "best available"]
  const MODERATE := ["mid", "moderate", "standard", "mid-range"]
  const CHEAP := ["budget", "cheap", "economical", "affordable"]

  predicate IsAmountChar(c: char) {
    IsDigit(c) || c == ','
  }

  /** `[\d,]*` from position i on, the commas dropped. */
  function AmountDigits(s: string, i: nat): (digits: string)
    requires i <= |s|
    ensures forall k :: 0 <= k < |digits| ==> IsDigit(digits[k])
    decreases |s| - i
  {
    if i == |s| || !IsAmountChar(s[i]) then ""
    else if s[i] == ',' then AmountDigits(s, i + 1)
    else [s[i]] + AmountDigits(s, i + 1)
  }

  /** The first `\d[\d,]{2,}`, as a number. What may stand around it in the pattern does not move it. */
  function FirstAmount(s: string, i: nat): Option<nat>
    requires i <= |s|
    decreases |s| - i
  {
    if i + 3 > |s| then None
    else if IsDigit(s[i]) && IsAmountChar(s[i + 1]) && IsAmountChar(s[i + 2]) then Some(ToNat(AmountDigits(s, i)))
    else FirstAmount(s, i + 1)
  }

  function ExtractBudget(lower: string): Option<nat> {
    if HasAnyWord(lower, NO_LIMIT) then Some(0)
    else if HasAnyWord(lower, LUXURY) then Some(12000)
    else if HasAnyWord(lower, MODERATE) then Some(8000)
    else if HasAnyWord(lower, CHEAP) then Some(5500)
    else
      var amount := FirstAmount(lower, 0);
      if amount.Some? && amount.value >= 1000 then amount else None
  }

  // ---- What one message says --------------------------------------------------------------------

  /** Directional cities, a lone city, whether it corrects an earlier one, and the other details;
      no travellers are 0. */
  datatype Reading = Reading(
    origin: Option<City>,
    destination: Option<City>,
    single: Option<City>,
    correcting: bool,
    date: Option<string>,
    travelers: nat,
    airline: Option<string>,
    budget: Option<nat>)

  function ReadMessage(message: string, today: int): Reading {
    var text := Text.Trim(message);
    var lower := Text.Lower(text);
    var origin := FirstCityAfter(lower, "from", 0);
    var destination := FirstCityAfter(lower, "to", 0);
    Reading(origin,
            if destination != origin then destination else None,
            CityIn(lower),
            Correcting(lower),
            ExtractDate(text, today),
            ExtractTravelers(lower),
            ExtractAirline(lower),
            ExtractBudget(lower))
  }

  /** `\b(actually|instead|change (?:it )?to|make it|rather|no,)\b` */
  predicate Correcting(s: string) {
    HasAnyWord(s, ["actually", "instead", "change to", "change it to", "make it", "rather", "no,"])
  }

  // ---- What else a message can mean -----------------------------------------------------------------

  predicate MentionsHotel(s: string) {
    HasAnyWord(s, ["hotel", "stay", "accommodation", "room", "lodging"])
  }

  predicate MentionsReturn(s: string) {
    HasAnyWord(s, ["return", "back home", "coming back", "way back"])
  }

  predicate WantsFlight(s: string) {
    HasAnyWord(s, ["flight", "fly", "flights", "airline", "air",
                   "trip", "travel", "travelling", "traveling", "journey", "vacation", "holiday", "getaway", "plan"])
  }

  predicate IsCapital(c: char) {
    'A' <= c <= 'Z'
  }

  /** `\b[A-Z]{2}\d{3}\b`, in capitals. */
  predicate FlightNumberAt(s: string, i: nat) {
    && i + 5 <= |s| && IsCapital(s[i]) && IsCapital(s[i + 1]) && Span(s, i + 2, Digits) >= 3
    && Boundary(s, i) && Boundary(s, i + 5)
  }

  /** `\bhs-[a-z]+-\d+\b` */
  predicate HotelOfferAt(s: string, i: nat) {
    && At(s, i, "hs-") && Boundary(s, i)
    && var j := i + 3 + Span(s, i + 3, Letters);
       && j > i + 3 && At(s, j, "-")
       && var d := Span(s, j + 1, Digits);
          d > 0 && Boundary(s, j + 1 + d)
  }

  /** `\boption\s*\d+\b` */
  predicate OptionAt(s: string, i: nat) {
    && At(s, i, "option") && Boundary(s, i)
    && var j := i + 6 + Span(s, i + 6, Spaces);
       var d := Span(s, j, Digits);
       d > 0 && Boundary(s, j + d)
  }

  /** A booking word and a concrete offer. */
  predicate ConfirmsOption(message: string) {
    var lower := Text.Lower(message);
    && HasAnyWord(lower, ["book", "reserve", "confirm", "select", "take"])
    && exists i :: 0 <= i <= |message| && (FlightNumberAt(message, i) || HotelOfferAt(lower, i) || OptionAt(lower, i))
  }
}
