/** The travel agent's slot filling: what a message adds to the trip, what is asked next, and why
    questions come to an end when they are answered. */
module TripSlots {
  import opened Common
  import opened MessageReading
  import Text

  // ---- The trip -------------------------------------------------------------------------------------

  datatype TripProfile = TripProfile(
    origin: Option<City>,
    destination: Option<City>,
    departureDate: Option<string>,
    returnDate: Option<string>,
    travelers: Option<nat>,
    airlinePreference: Option<string>,
    hotelBudget: Option<nat>)

  const EMPTY := TripProfile(None, None, None, None, None, None, None)

  datatype Track = Flight | Hotel | Return

  /** A lone city answers whichever city question is outstanding, unless it is a correction. */
  function WithLoneCity(p: TripProfile, city: City, correcting: bool): TripProfile {
    if correcting || p.destination.None? then p.(destination := Some(city))
    else if p.origin.None? && Some(city) != p.destination then p.(origin := Some(city))
    else p.(destination := Some(city))
  }

  function WithCities(p: TripProfile, r: Reading): TripProfile {
    if r.origin.None? && r.destination.None? then
      if r.single.Some? then WithLoneCity(p, r.single.value, r.correcting) else p
    else
      p.(origin := if r.origin.Some? then r.origin else p.origin,
         destination := if r.destination.Some? then r.destination else p.destination)
  }

  function ExtractSlots(r: Reading, p: TripProfile, forReturn: bool): TripProfile {
    WithCities(p, r).(
      departureDate := if r.date.Some? && !forReturn then r.date else p.departureDate,
      returnDate := if r.date.Some? && forReturn then r.date else p.returnDate,
      travelers := if r.travelers != 0 then Some(r.travelers) else p.travelers,
      airlinePreference := if r.airline.Some? then r.airline else p.airlinePreference,
      hotelBudget := if r.budget.Some? then r.budget else p.hotelBudget)
  }

  /** `extractSlots`, field by field. */
  method ExtractSlotsInOrder(message: string, today: int, profile: TripProfile, forReturn: bool) returns (next: TripProfile)
    ensures next == ExtractSlots(ReadMessage(message, today), profile, forReturn)
  {
    var r := ReadMessage(message, today);
    next := profile;
    if r.origin.Some? { next := next.(origin := r.origin); }
    if r.destination.Some? { next := next.(destination := r.destination); }
    if r.origin.None? && r.destination.None? && r.single.Some? {
      if r.correcting { next := next.(destination := r.single); }
      else if next.destination.None? { next := next.(destination := r.single); }
      else if next.origin.None? && r.single != next.destination { next := next.(origin := r.single); }
      else { next := next.(destination := r.single); }
    }
    if r.date.Some? {
      if forReturn { next := next.(returnDate := r.date); } else { next := next.(departureDate := r.date); }
    }
    if r.travelers != 0 { next := next.(travelers := Some(r.travelers)); }
    if r.airline.Some? { next := next.(airlinePreference := r.airline); }
    if r.budget.Some? { next := next.(hotelBudget := r.budget); }
  }

  datatype Slot = Destination | Origin | DepartureDate | ReturnDate | Travelers | Airline | Budget

  predicate Missing(p: TripProfile, slot: Slot) {
    match slot
    case Destination => p.destination.None?
    case Origin => p.origin.None?
    case DepartureDate => p.departureDate.None?
    case ReturnDate => p.returnDate.None?
    case Travelers => p.travelers.None?
    case Airline => p.airlinePreference.None?
    case Budget => p.hotelBudget.None?
  }

  function NextFlightQuestion(p: TripProfile): Option<Slot> {
    if p.destination.None? then Some(Destination)
    else if p.origin.None? then Some(Origin)
    else if p.departureDate.None? then Some(DepartureDate)
    else if p.travelers.None? then Some(Travelers)
    else if p.airlinePreference.None? then Some(Airline)
    else None
  }

  function NextHotelQuestion(p: TripProfile): Option<Slot> {
    if p.destination.None? then Some(Destination)
    else if p.hotelBudget.None? then Some(Budget)
    else None
  }

  function NextReturnQuestion(p: TripProfile): Option<Slot> {
    if p.origin.None? || p.destination.None? then NextFlightQuestion(p)
    else if p.returnDate.None? then Some(ReturnDate)
    else None
  }

  function NextQuestion(track: Track, p: TripProfile): Option<Slot> {
    match track
    case Flight => NextFlightQuestion(p)
    case Hotel => NextHotelQuestion(p)
    case Return => NextReturnQuestion(p)
  }

  /** The leg has to be settled before the message is read, because it decides where a bare date lands. */
  function ResolveTrack(message: string, answering: bool, track: Option<Track>): Track {
    var lower := Text.Lower(message);
    if MentionsHotel(lower) then Hotel
    else if MentionsReturn(lower) then Return
    else if answering && track.Some? then track.value
    else Flight
  }

  // ---- Why the questions end -----------------------------------------------------------------------------

  /** The slots a search on the track needs. */
  function Needed(track: Track): seq<Slot> {
    match track
    case Flight => [Destination, Origin, DepartureDate, Travelers, Airline]
    case Hotel => [Destination, Budget]
    case Return => [Destination, Origin, ReturnDate]
  }

  function CountMissing(p: TripProfile, slots: seq<Slot>): nat {
    if slots == [] then 0 else (if Missing(p, slots[0]) then 1 else 0) + CountMissing(p, slots[1..])
  }

  function MissingCount(track: Track, p: TripProfile): nat {
    CountMissing(p, Needed(track))
  }

  /** No message empties a slot. */
  lemma ExtractionNeverEmptiesASlot(r: Reading, p: TripProfile, forReturn: bool, slot: Slot)
    ensures Missing(ExtractSlots(r, p, forReturn), slot) ==> Missing(p, slot)
  {
  }

  lemma {:induction false} FillingLowersCount(p: TripProfile, p': TripProfile, slots: seq<Slot>, slot: Slot)
    requires forall s :: Missing(p', s) ==> Missing(p, s)
    ensures CountMissing(p', slots) <= CountMissing(p, slots)
    ensures slot in slots && Missing(p, slot) && !Missing(p', slot) ==> CountMissing(p', slots) < CountMissing(p, slots)
  {
    if slots != [] {
      FillingLowersCount(p, p', slots[1..], slot);
    }
  }

  predicate IsFirstMissing(p: TripProfile, slots: seq<Slot>, k: int) {
    0 <= k < |slots| && Missing(p, slots[k]) && forall j :: 0 <= j < k ==> !Missing(p, slots[j])
  }

  /** What is asked is the first needed slot that is missing, and nothing is asked exactly when none is. */
  lemma QuestionIsForAMissingSlot(track: Track, p: TripProfile)
    ensures var q := NextQuestion(track, p);
            && (q.Some? ==> q.value in Needed(track) && Missing(p, q.value))
            && (q.None? <==> MissingCount(track, p) == 0)
            && (q.None? <==> forall slot :: slot in Needed(track) ==> !Missing(p, slot))
            && (q.Some? ==> exists k :: IsFirstMissing(p, Needed(track), k) && q.value == Needed(track)[k])
  {
    var n := Needed(track);
    var q := NextQuestion(track, p);
    match track {
      case Flight => assert n[0] == Destination && n[1] == Origin && n[2] == DepartureDate && n[3] == Travelers && n[4] == Airline;
      case Hotel => assert n[0] == Destination && n[1] == Budget;
      case Return => assert n[0] == Destination && n[1] == Origin && n[2] == ReturnDate;
    }
    if q.None? {
      AllFilled(p, n);
    } else if CountMissing(p, n) == 0 {
      NoneMissing(p, n, q.value);
    }
  }

  lemma {:induction false} NoneMissing(p: TripProfile, slots: seq<Slot>, slot: Slot)
    requires CountMissing(p, slots) == 0 && slot in slots
    ensures !Missing(p, slot)
  {
    if slots[0] != slot {
      NoneMissing(p, slots[1..], slot);
    }
  }

  lemma {:induction false} AllFilled(p: TripProfile, slots: seq<Slot>)
    requires forall slot :: slot in slots ==> !Missing(p, slot)
    ensures CountMissing(p, slots) == 0
  {
    if slots != [] {
      AllFilled(p, slots[1..]);
    }
  }

  /** An answer that fills the slot asked for strictly lowers what is missing; no message raises it. */
  lemma AnswerMakesProgress(track: Track, p: TripProfile, r: Reading, forReturn: bool)
    ensures var p' := ExtractSlots(r, p, forReturn);
            && MissingCount(track, p') <= MissingCount(track, p)
            && (NextQuestion(track, p).Some? && !Missing(p', NextQuestion(track, p).value) ==>
                  MissingCount(track, p') < MissingCount(track, p))
  {
    var p' := ExtractSlots(r, p, forReturn);
    QuestionIsForAMissingSlot(track, p);
    forall s ensures Missing(p', s) ==> Missing(p, s) {
      ExtractionNeverEmptiesASlot(r, p, forReturn, s);
    }
    var q := NextQuestion(track, p);
    FillingLowersCount(p, p', Needed(track), if q.Some? then q.value else Origin);
  }

  /** A user's message, on the day it is read. */
  datatype Said = Said(message: string, today: int)

  function Heard(p: TripProfile, track: Track, said: Said): TripProfile {
    ExtractSlots(ReadMessage(said.message, said.today), p, track == Return)
  }

  /** Folding a conversation into the trip, all on one track. */
  function Converse(p: TripProfile, track: Track, replies: seq<Said>): TripProfile
    decreases |replies|
  {
    if replies == [] then p else Converse(Heard(p, track, replies[0]), track, replies[1..])
  }

  /** Every reply fills the slot it was asked for, as long as something is asked. */
  predicate Responsive(p: TripProfile, track: Track, replies: seq<Said>)
    decreases |replies|
  {
    replies == [] ||
    (var p' := Heard(p, track, replies[0]);
     && (NextQuestion(track, p).Some? ==> !Missing(p', NextQuestion(track, p).value))
     && Responsive(p', track, replies[1..]))
  }

  /** As many responsive replies as slots were missing always reach a search, whatever else they say. */
  lemma {:induction false} QuestionsEnd(p: TripProfile, track: Track, replies: seq<Said>)
    requires Responsive(p, track, replies) && |replies| >= MissingCount(track, p)
    ensures NextQuestion(track, Converse(p, track, replies)).None?
    decreases |replies|
  {
    hide ReadMessage, ExtractSlots, NextQuestion, Missing, MissingCount;
    QuestionIsForAMissingSlot(track, p);
    if replies != [] {
      AnswerMakesProgress(track, p, ReadMessage(replies[0].message, replies[0].today), track == Return);
      QuestionsEnd(Heard(p, track, replies[0]), track, replies[1..]);
    }
  }

  lemma AtMostFiveQuestions(track: Track, p: TripProfile)
    ensures MissingCount(track, p) <= |Needed(track)| <= 5
  {
    CountIsBounded(p, Needed(track));
  }

  lemma {:induction false} CountIsBounded(p: TripProfile, slots: seq<Slot>)
    ensures CountMissing(p, slots) <= |slots|
  {
    if slots != [] {
      CountIsBounded(p, slots[1..]);
    }
  }

  // ---- The search -------------------------------------------------------------------------------------

  datatype Search =
    | SearchHotels(city: City, maxNightlyRate: nat, guests: nat)
    | SearchFlights(origin: City, destination: City, departureDate: string, travelers: nat, carrier: string)

  /** The arguments the search takes out of the trip: none of them is missing once nothing is asked. */
  function SearchFor(track: Track, p: TripProfile): Search
    requires NextQuestion(track, p).None?
  {
    var travelers := if p.travelers.Some? then p.travelers.value else 1;
    var carrier := if p.airlinePreference.Some? then p.airlinePreference.value else "any";
    match track
    case Hotel => SearchHotels(p.destination.value, if p.hotelBudget.Some? then p.hotelBudget.value else 0, travelers)
    case Return => SearchFlights(p.destination.value, p.origin.value, p.returnDate.value, travelers, carrier)
    case Flight => SearchFlights(p.origin.value, p.destination.value, p.departureDate.value, travelers, carrier)
  }

  // ---- The planning endpoint ------------------------------------------------------------------------

  datatype Reply =
    | BadRequest
    | Ask(slot: Slot, track: Track)
    | RunSearch(search: Search, track: Track)
    | Unplanned

  function ProfileOf(profiles: map<string, TripProfile>, token: string): TripProfile {
    if token in profiles then profiles[token] else EMPTY
  }

  /** A question while one is due, otherwise the search; confirming an offered option is neither. */
  function ReplyTo(text: string, p: TripProfile, answering: bool, track: Track): Reply {
    if ConfirmsOption(text) || !(track == Hotel || track == Return || answering || WantsFlight(Text.Lower(text))) then Unplanned
    else if NextQuestion(track, p).Some? then Ask(NextQuestion(track, p).value, track)
    else RunSearch(SearchFor(track, p), track)
  }

  /** One request: the profile it leaves, and the reply. */
  function Planned(message: string, today: int, p: TripProfile, answering: bool, asked: Option<Track>): (TripProfile, Reply) {
    var text := Text.Trim(message);
    if text == "" then (p, BadRequest)
    else
      var track := ResolveTrack(text, answering, asked);
      var p' := ExtractSlots(ReadMessage(text, today), p, track == Return);
      (p', ReplyTo(text, p', answering, track))
  }

  class TripPlanner {
    var tripProfiles: map<string, TripProfile>

    constructor ()
      ensures tripProfiles == map[]
    {
      tripProfiles := map[];
    }

    method Plan(token: string, message: string, today: int, answering: bool, asked: Option<Track>) returns (reply: Reply)
      modifies this
      ensures var (p, r) := Planned(message, today, ProfileOf(old(tripProfiles), token), answering, asked);
              && reply == r
              && tripProfiles == if r.BadRequest? then old(tripProfiles) else old(tripProfiles)[token := p]
    {
      hide HasAnyWord, ReadMessage, ConfirmsOption, ExtractSlots, WantsFlight, ResolveTrack, NextQuestion, SearchFor, Text.Trim, Text.Lower;
      var text := Text.Trim(message);
      if text == "" {
        return BadRequest;
      }
      var track := ResolveTrack(text, answering, asked);
      var before := if token in tripProfiles then tripProfiles[token] else EMPTY;
      var profile := ExtractSlotsInOrder(text, today, before, track == Return);
      tripProfiles := tripProfiles[token := profile];
      var searchIntent := !ConfirmsOption(text) && (track == Hotel || track == Return || answering || WantsFlight(Text.Lower(text)));
      if !searchIntent {
        return Unplanned;
      }
      var question := NextQuestion(track, profile);
      if question.Some? {
        return Ask(question.value, track);
      }
      reply := RunSearch(SearchFor(track, profile), track);
    }
  }
}
