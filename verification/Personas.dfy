/** Persona ids of the hosted concierge: slugs of display names, numbered until one is free. */
module Personas {
  import opened Common
  import opened Text

  // ---- Slugs -------------------------------------------------------------------------------

  predicate IsLetter(c: char) {
    'a' <= c <= 'z'
  }

  predicate IsWordChar(c: char) {
    IsLetter(c) || '0' <= c <= '9'
  }

  /** What separates the words of a name. */
  predicate IsGap(c: char) {
    !IsWordChar(c)
  }

  /** The route's check: `^[a-z][a-z0-9-]*$`. */
  predicate IsPersonaId(id: string) {
    id != "" && IsLetter(id[0]) && forall i :: 0 <= i < |id| ==> IsWordChar(id[i]) || id[i] == '-'
  }

  /** `.replace(/[^a-z0-9]+/g, '-')` */
  function Dashed(s: string): string {
    ReplaceRuns(s, IsGap, '-', false)
  }

  function DropFirstDashes(s: string): string {
    if s != "" && s[0] == '-' then DropFirstDashes(s[1..]) else s
  }

  function DropLastDashes(s: string): string {
    if s != "" && s[|s| - 1] == '-' then DropLastDashes(s[..|s| - 1]) else s
  }

  function Decimal(n: nat): string {
    if n < 10 then [('0' as int + n) as char] else Decimal(n / 10) + [('0' as int + n % 10) as char]
  }

  /** `lower` is the runtime's lower-casing, whatever it does with letters beyond ASCII. */
  function Slugify(value: string, lower: string -> string, now: nat): string {
    var slug := DropLastDashes(DropFirstDashes(Dashed(lower(Trim(value)))));
    if slug != "" && IsLetter(slug[0]) then slug else "agent-" + (if slug != "" then slug else Decimal(now))
  }

  // ---- Free ids -------------------------------------------------------------------------------

  function Numbered(base: string, i: nat): string {
    base + "-" + Decimal(i)
  }

  function FirstFree(base: string, taken: set<string>, i: nat, now: nat): string
    decreases 1000 - i
  {
    if i >= 1000 then Numbered(base, now)
    else if Numbered(base, i) !in taken then Numbered(base, i)
    else FirstFree(base, taken, i + 1, now)
  }

  function UniqueId(base: string, taken: set<string>, now: nat): string {
    if base !in taken then base else FirstFree(base, taken, 2, now)
  }

  // ---- The registry ----------------------------------------------------------------------------

  datatype Persona = Persona(id: string, displayName: string, scopes: seq<string>, walletFile: string)

  datatype OnboardError = TokenRequired | BadPersonaId | PersonaExists | EnrollmentFailed

  /** The id a request resolves to: the one it names, or one made from the display name. */
  function ResolveId(
      personaId: string, displayName: string, fallbackName: string, taken: set<string>, lower: string -> string, now: nat): string
  {
    var name := if Trim(displayName) != "" then Trim(displayName) else fallbackName;
    if Trim(personaId) != "" then Trim(personaId) else UniqueId(Slugify(name, lower, now), taken, now)
  }

  function OnboardCheck(bootstrapToken: string, id: string, taken: set<string>): Option<OnboardError> {
    if bootstrapToken == "" then Some(TokenRequired)
    else if !IsPersonaId(id) then Some(BadPersonaId)
    else if id in taken then Some(PersonaExists)
    else None
  }

  /** The map in memory and the manifest on disk, which another process may write too. */
  class PersonaRegistry {
    var personas: map<string, Persona>
    var manifest: map<string, Persona>

    constructor (onDisk: map<string, Persona>)
      ensures personas == manifest == onDisk
    {
      personas, manifest := onDisk, onDisk;
    }

    /** Re-reads the manifest before merging, so what another process wrote stays. */
    method AddPersona(persona: Persona)
      modifies this
      ensures manifest == old(manifest)[persona.id := persona] && personas == manifest
    {
      var merged := manifest;
      merged := merged[persona.id := persona];
      manifest := merged;
      personas := merged;
    }

    /** An id the manifest does not have is an error, even if memory still has it. */
    method UpdatePersona(id: string, patch: Persona -> Persona) returns (r: Option<Persona>)
      modifies this
      ensures if id in old(manifest)
              then r == Some(patch(old(manifest)[id])) && manifest == old(manifest)[id := r.value] && personas == manifest
              else r == None && manifest == old(manifest) && personas == old(personas)
    {
      var merged := manifest;
      if id !in merged {
        return None;
      }
      var next := patch(merged[id]);
      merged := merged[id := next];
      manifest := merged;
      personas := merged;
      r := Some(next);
    }

    method UniquePersonaId(base: string, now: nat) returns (id: string)
      ensures id == UniqueId(base, personas.Keys, now)
    {
      if base !in personas {
        return base;
      }
      for i := 2 to 1000
        invariant FirstFree(base, personas.Keys, i, now) == FirstFree(base, personas.Keys, 2, now)
      {
        var candidate := Numbered(base, i);
        if candidate !in personas {
          return candidate;
        }
      }
      id := Numbered(base, now);
    }

    /** POST /onboard-agent; `enrolled` says whether the enrollment went through. */
    method OnboardAgent(
        bootstrapToken: string, personaId: string, displayName: string, fallbackName: string, lower: string -> string, now: nat,
        enrolled: bool) returns (r: Result<Persona, OnboardError>)
      modifies this
      ensures var id := ResolveId(personaId, displayName, fallbackName, old(personas.Keys), lower, now);
              match OnboardCheck(bootstrapToken, id, old(personas.Keys))
              case Some(e) => r == Err(e) && personas == old(personas) && manifest == old(manifest)
              case None =>
                if enrolled then
                  r.Ok? && r.value.id == id && manifest == old(manifest)[id := r.value] && personas == manifest
                else r == Err(EnrollmentFailed) && personas == old(personas) && manifest == old(manifest)
      ensures r.Ok? ==> bootstrapToken != "" && IsPersonaId(r.value.id)
      ensures r.Ok? && Trim(personaId) != "" ==> r.value.id == Trim(personaId)
      ensures r.Ok? ==> r.value.id !in old(personas) && r.value.id in personas && r.value.id in manifest
      ensures r.Ok? ==> r.value.displayName == if Trim(displayName) != "" then Trim(displayName) else fallbackName
    {
      hide Slugify, IsPersonaId, Trim;
      if bootstrapToken == "" {
        return Err(TokenRequired);
      }
      var name := if Trim(displayName) != "" then Trim(displayName) else fallbackName;
      var id := Trim(personaId);
      if id == "" {
        id := UniquePersonaId(Slugify(name, lower, now), now);
      }
      if !IsPersonaId(id) {
        return Err(BadPersonaId);
      }
      if id in personas {
        return Err(PersonaExists);
      }
      if !enrolled {
        return Err(EnrollmentFailed);
      }
      var persona := Persona(id, name, [], "");
      AddPersona(persona);
      r := Ok(persona);
    }
  }

  // ---- Generated ids are well formed ------------------------------------------------------------

  predicate OnlyIdChars(s: string) {
    forall i :: 0 <= i < |s| ==> IsWordChar(s[i]) || s[i] == '-'
  }

  lemma DashedHasIdChars(s: string)
    ensures OnlyIdChars(Dashed(s))
  {
    ReplaceRunsReplaces(s, IsGap, '-', false);
  }

  lemma {:induction false} DropFirstKeepsIdChars(s: string)
    requires OnlyIdChars(s)
    ensures OnlyIdChars(DropFirstDashes(s))
  {
    if s != "" {
      DropFirstKeepsIdChars(s[1..]);
    }
  }

  lemma {:induction false} DropLastKeepsIdChars(s: string)
    requires OnlyIdChars(s)
    ensures OnlyIdChars(DropLastDashes(s))
  {
    if s != "" {
      DropLastKeepsIdChars(s[..|s| - 1]);
    }
  }

  lemma {:induction false} DecimalHasIdChars(n: nat)
    ensures OnlyIdChars(Decimal(n))
  {
    if n >= 10 {
      DecimalHasIdChars(n / 10);
    }
  }

  lemma PrefixedIsAPersonaId(s: string)
    requires OnlyIdChars(s)
    ensures IsPersonaId("agent-" + s)
  {
    var head := "agent-";
    assert OnlyIdChars(head) && IsLetter(head[0]);
  }

  lemma SlugIsAPersonaId(value: string, lower: string -> string, now: nat)
    ensures IsPersonaId(Slugify(value, lower, now))
  {
    hide Trim, Dashed, DropFirstDashes, DropLastDashes, Decimal, IsWordChar;
    var dashed := Dashed(lower(Trim(value)));
    DashedHasIdChars(lower(Trim(value)));
    DropFirstKeepsIdChars(dashed);
    DropLastKeepsIdChars(DropFirstDashes(dashed));
    PrefixedIsAPersonaId(DropLastDashes(DropFirstDashes(dashed)));
    DecimalHasIdChars(now);
    PrefixedIsAPersonaId(Decimal(now));
  }

  // ---- What a slug keeps ------------------------------------------------------------------------

  lemma {:induction false} FirstDashesAreNoWords(s: string)
    ensures var t := DropFirstDashes(s);
            && Words(t, IsGap) == Words(s, IsGap) && |t| <= |s| && t == s[|s| - |t|..] && (t != "" ==> t[0] != '-')
  {
    if s != "" && s[0] == '-' {
      FirstDashesAreNoWords(s[1..]);
    }
  }

  lemma {:induction false} LastDashesAreNoWords(s: string)
    ensures var t := DropLastDashes(s);
            && Words(t, IsGap) == Words(s, IsGap) && |t| <= |s| && t == s[..|t|] && (t != "" ==> t[|t| - 1] != '-')
  {
    if s != "" && s[|s| - 1] == '-' {
      var n := |s| - 1;
      assert s == s[..n] + ['-'];
      NoWordAtTheEnd(s[..n], '-', IsGap);
      LastDashesAreNoWords(s[..n]);
    }
  }

  lemma SlugIsApart(text: string)
    ensures var slug := DropLastDashes(DropFirstDashes(Dashed(text)));
            Apart(slug, IsGap, '-') && Words(slug, IsGap) == Words(text, IsGap)
  {
    var dashed := Dashed(text);
    ReplaceRunsKeepsWords(text, IsGap, '-', false, IsGap);
    ReplaceRunsReplaces(text, IsGap, '-', false);
    FirstDashesAreNoWords(dashed);
    LastDashesAreNoWords(DropFirstDashes(dashed));
    var slug := DropLastDashes(DropFirstDashes(dashed));
    var k := |dashed| - |DropFirstDashes(dashed)|;
    assert forall i :: 0 <= i < |slug| ==> slug[i] == dashed[k + i];
    hide Dashed, DropFirstDashes, DropLastDashes, ReplaceRuns, Words;
    PartIsReplaced(dashed, slug, k);
  }

  lemma PartIsReplaced(s: string, part: string, k: nat)
    requires RunsReplaced(s, IsGap, '-') && k + |part| <= |s| && forall i :: 0 <= i < |part| ==> part[i] == s[k + i]
    requires part != "" ==> part[0] != '-' && part[|part| - 1] != '-'
    ensures Apart(part, IsGap, '-')
  {
    forall i | 0 <= i < |part| && IsGap(part[i]) ensures part[i] == '-' {
      assert s[k + i] == part[i];
    }
    forall i | 0 <= i < |part| - 1 && part[i] == '-' ensures part[i + 1] != '-' {
      assert s[k + i] == '-' && s[k + i + 1] == part[i + 1];
    }
  }

  /** A slug is the words of the lower-cased name, all its letters and digits in order, with single dashes between the
      words; "agent-" stands before it where it would not start with a letter, and the time after that where the name
      has no word at all. */
  lemma SlugIsItsWords(value: string, lower: string -> string, now: nat)
    ensures var words := Words(lower(Trim(value)), IsGap);
            Slugify(value, lower, now)
            == if words == [] then "agent-" + Decimal(now)
               else if words[0] != "" && IsLetter(words[0][0]) then Joined(words, '-')
               else "agent-" + Joined(words, '-')
  {
    var text := lower(Trim(value));
    var slug := DropLastDashes(DropFirstDashes(Dashed(text)));
    SlugIsApart(text);
    DashIsGap();
    WordsAreJoined(slug, IsGap, '-');
    if slug != "" {
      HeadOfWords(slug, IsGap);
    }
    hide Dashed, DropFirstDashes, DropLastDashes, Joined, Trim, Decimal;
  }

  lemma DashIsGap()
    ensures IsGap('-')
  {
  }

  lemma NumberedIsAPersonaId(base: string, i: nat)
    requires IsPersonaId(base)
    ensures IsPersonaId(Numbered(base, i))
  {
    DecimalHasIdChars(i);
  }

  lemma {:induction false} FirstFreeIsAPersonaId(base: string, taken: set<string>, i: nat, now: nat)
    requires IsPersonaId(base)
    ensures IsPersonaId(FirstFree(base, taken, i, now))
    decreases 1000 - i
  {
    NumberedIsAPersonaId(base, i);
    NumberedIsAPersonaId(base, now);
    if i < 1000 {
      FirstFreeIsAPersonaId(base, taken, i + 1, now);
    }
  }

  // ---- Generated ids are free -----------------------------------------------------------------------

  function Number(s: string): nat
    requires s != "" && forall i :: 0 <= i < |s| ==> '0' <= s[i] <= '9'
  {
    var last := s[|s| - 1] as int - '0' as int;
    if |s| == 1 then last else 10 * Number(s[..|s| - 1]) + last
  }

  /** A printed number reads back, so different numbers print differently. */
  lemma {:induction false} DecimalReadsBack(n: nat)
    ensures Decimal(n) != "" && forall i :: 0 <= i < |Decimal(n)| ==> '0' <= Decimal(n)[i] <= '9'
    ensures Number(Decimal(n)) == n
  {
    if n >= 10 {
      DecimalReadsBack(n / 10);
      assert Decimal(n)[..|Decimal(n)| - 1] == Decimal(n / 10);
    }
  }

  lemma NumberedIsInjective(base: string, i: nat, j: nat)
    requires Numbered(base, i) == Numbered(base, j)
    ensures i == j
  {
    assert Numbered(base, i)[|base| + 1..] == Decimal(i);
    assert Numbered(base, j)[|base| + 1..] == Decimal(j);
    DecimalReadsBack(i);
    DecimalReadsBack(j);
  }

  /** The base and its numbered forms from 2 up to `n - 1`. */
  function Candidates(base: string, n: nat): set<string> {
    if n <= 2 then {base} else Candidates(base, n - 1) + {Numbered(base, n - 1)}
  }

  lemma {:induction false} CandidatesAre(base: string, n: nat)
    requires n >= 2
    ensures forall c :: c in Candidates(base, n) <==> c == base || exists i: nat :: 2 <= i < n && c == Numbered(base, i)
  {
    if n > 2 {
      CandidatesAre(base, n - 1);
    }
  }

  lemma {:induction false} CandidatesAreDistinct(base: string, n: nat)
    requires n >= 2
    ensures |Candidates(base, n)| == n - 1
  {
    if n > 2 {
      CandidatesAreDistinct(base, n - 1);
      CandidatesAre(base, n - 1);
      if Numbered(base, n - 1) in Candidates(base, n - 1) {
        assert |Numbered(base, n - 1)| > |base|;
        var i: nat :| 2 <= i < n - 1 && Numbered(base, n - 1) == Numbered(base, i);
        NumberedIsInjective(base, n - 1, i);
      }
    }
  }

  lemma {:induction false} FirstFreeIsTakenIff(base: string, taken: set<string>, i: nat, now: nat)
    ensures FirstFree(base, taken, i, now) in taken
       <==> Numbered(base, now) in taken && forall j: nat :: i <= j < 1000 ==> Numbered(base, j) in taken
    decreases 1000 - i
  {
    if i < 1000 {
      FirstFreeIsTakenIff(base, taken, i + 1, now);
    }
  }

  /** A generated id is taken exactly when all 999 candidates and the time-stamped one are. */
  lemma UniqueIdIsTakenIff(base: string, taken: set<string>, now: nat)
    ensures UniqueId(base, taken, now) in taken <==> Candidates(base, 1000) <= taken && Numbered(base, now) in taken
  {
    hide FirstFree, Candidates, Numbered;
    CandidatesAre(base, 1000);
    FirstFreeIsTakenIff(base, taken, 2, now);
    if Candidates(base, 1000) <= taken {
      assert base in Candidates(base, 1000);
      forall j: nat | 2 <= j < 1000 ensures Numbered(base, j) in taken {
        assert Numbered(base, j) in Candidates(base, 1000);
      }
    }
  }

  lemma SubsetIsNotLarger(a: set<string>, b: set<string>)
    requires a <= b
    ensures |a| <= |b|
  {
    assert b == a + (b - a);
  }

  /** For every display name and every lower-casing, the generated id passes the route's pattern; and with fewer
      than 999 personas it is free, so that path never answers 400 or 409. */
  lemma GeneratedIdIsAccepted(
      bootstrapToken: string, personaId: string, displayName: string, fallbackName: string, taken: set<string>,
      lower: string -> string, now: nat)
    requires bootstrapToken != "" && Trim(personaId) == ""
    ensures var answer := OnboardCheck(bootstrapToken, ResolveId(personaId, displayName, fallbackName, taken, lower, now), taken);
            answer != Some(BadPersonaId) && (|taken| < 999 ==> answer == None)
  {
    hide FirstFree, Candidates, Numbered, IsPersonaId, Slugify, Trim;
    var name := if Trim(displayName) != "" then Trim(displayName) else fallbackName;
    var base := Slugify(name, lower, now);
    SlugIsAPersonaId(name, lower, now);
    FirstFreeIsAPersonaId(base, taken, 2, now);
    UniqueIdIsTakenIff(base, taken, now);
    CandidatesAreDistinct(base, 1000);
    if Candidates(base, 1000) <= taken {
      SubsetIsNotLarger(Candidates(base, 1000), taken);
    }
  }
}
