/** Hosted-account access tokens: compact JWS with an HMAC (section 3.1 of RFC 7515), checked without
    any stored state. JSON and HMAC are parameters of the model. */
module AccessTokens {
  import opened Common
  import opened Base64Url
  import opened Text
  import Accounts = AccountStore
  import AuthModel

  type Claims = AuthModel.AccessClaims

  /** A parsed body: its claims and `exp`, if that is a number at all. */
  datatype Payload = Payload(claims: Claims, exp: Option<int>)

  datatype Runtime = Runtime(
    stringify: Claims -> Bytes,
    parse: Bytes -> Option<Payload>,
    hmac: (string, string) -> Bytes)

  /** `JSON.parse` gives back what `JSON.stringify` wrote. */
  ghost predicate JsonRoundTrips(rt: Runtime) {
    forall claims :: rt.parse(rt.stringify(claims)) == Some(Payload(claims, Some(claims.exp)))
  }

  datatype TokenError = AccessTokenInvalid | AccessTokenExpired

  // ---- Issuing and verifying ------------------------------------------------------------------

  /** `{"alg":"HS256","typ":"JWT"}` in ASCII. */
  function HeaderBytes(): Bytes {
    var text := "{\"alg\":\"HS256\",\"typ\":\"JWT\"}";
    seq(|text|, i requires 0 <= i < |text| => text[i] as int % 256)
  }

  function Signature(rt: Runtime, secret: string, header: string, body: string): string {
    Encode(rt.hmac(secret, header + "." + body))
  }

  function Seal(rt: Runtime, secret: string, claims: Claims): string {
    var header, body := Encode(HeaderBytes()), Encode(rt.stringify(claims));
    header + "." + body + "." + Signature(rt, secret, header, body)
  }

  /** The clock in whole seconds, rounded down. */
  function Seconds(nowMs: int): int {
    nowMs / 1000
  }

  function ClaimsFor(accountId: string, ttlSeconds: int, scope: seq<string>, nowMs: int, jti: string): Claims {
    AuthModel.AccessClaims(accountId, scope, Seconds(nowMs), Seconds(nowMs) + ttlSeconds, jti)
  }

  function IssueAccessToken(
      rt: Runtime, secret: string, accountId: string, ttlSeconds: int, scope: seq<string>, nowMs: int, jti: string): string
  {
    Seal(rt, secret, ClaimsFor(accountId, ttlSeconds, scope, nowMs, jti))
  }

  function VerifyAccessToken(rt: Runtime, secret: string, token: string, nowMs: int): Result<Claims, TokenError> {
    var parts := Split(token, '.');
    if |parts| != 3 then Err(AccessTokenInvalid)
    else if parts[2] != Signature(rt, secret, parts[0], parts[1]) then Err(AccessTokenInvalid)
    else
      match rt.parse(Decode(parts[1]))
      case None => Err(AccessTokenInvalid)
      case Some(payload) =>
        if payload.exp.None? || payload.exp.value <= Seconds(nowMs) then Err(AccessTokenExpired) else Ok(payload.claims)
  }

  // ---- What the tokens promise -----------------------------------------------------------------

  lemma EncodedHasNoDot(bytes: Bytes)
    ensures '.' !in Encode(bytes)
  {
    EncodedInAlphabet(bytes);
  }

  lemma ThreeParts(a: string, b: string, c: string)
    requires '.' !in a && '.' !in b && '.' !in c
    ensures Split(a + "." + b + "." + c, '.') == [a, b, c]
  {
    hide Split;
    SplitAtFirst(a, '.', b + "." + c);
    SplitAtFirst(b, '.', c);
    SplitNowhere(c);
    assert a + "." + b + "." + c == a + "." + (b + "." + c);
    assert [a] + ([b] + [c]) == [a, b, c];
  }

  lemma SplitNowhere(c: string)
    requires '.' !in c
    ensures Split(c, '.') == [c]
  {
  }

  lemma SealedParts(rt: Runtime, secret: string, claims: Claims)
    ensures var header, body := Encode(HeaderBytes()), Encode(rt.stringify(claims));
            Split(Seal(rt, secret, claims), '.') == [header, body, Signature(rt, secret, header, body)]
  {
    hide Encode, HeaderBytes, Split;
    var header, body := Encode(HeaderBytes()), Encode(rt.stringify(claims));
    EncodedHasNoDot(HeaderBytes());
    EncodedHasNoDot(rt.stringify(claims));
    EncodedHasNoDot(rt.hmac(secret, header + "." + body));
    ThreeParts(header, body, Signature(rt, secret, header, body));
  }

  lemma SealedIsNotEmpty(rt: Runtime, secret: string, claims: Claims)
    ensures Seal(rt, secret, claims) != ""
  {
  }

  /** An issued token has three parts and verifies, to the very claims issued, until `exp` and not after. */
  lemma IssuedTokenLivesUntilExp(
      rt: Runtime, secret: string, accountId: string, ttlSeconds: int, scope: seq<string>, issuedAt: int, jti: string, nowMs: int)
    requires JsonRoundTrips(rt)
    ensures var claims := ClaimsFor(accountId, ttlSeconds, scope, issuedAt, jti);
            var token := IssueAccessToken(rt, secret, accountId, ttlSeconds, scope, issuedAt, jti);
            && |Split(token, '.')| == 3
            && VerifyAccessToken(rt, secret, token, nowMs)
               == if Seconds(nowMs) < Seconds(issuedAt) + ttlSeconds then Ok(claims) else Err(AccessTokenExpired)
  {
    hide Encode, Decode, HeaderBytes, Split, Seal;
    var claims := ClaimsFor(accountId, ttlSeconds, scope, issuedAt, jti);
    SealedParts(rt, secret, claims);
    DecodeOfEncode(rt.stringify(claims));
  }

  /** Under another secret the token is refused, unless the two secrets give its text the same code. */
  lemma OtherSecretAcceptsIff(rt: Runtime, secret: string, other: string, claims: Claims, nowMs: int)
    requires JsonRoundTrips(rt)
    ensures var signed := Encode(HeaderBytes()) + "." + Encode(rt.stringify(claims));
            VerifyAccessToken(rt, other, Seal(rt, secret, claims), nowMs) != Err(AccessTokenInvalid)
            <==> rt.hmac(other, signed) == rt.hmac(secret, signed)
  {
    hide Encode, Decode, HeaderBytes, Split, Seal;
    var header, body := Encode(HeaderBytes()), Encode(rt.stringify(claims));
    SealedParts(rt, secret, claims);
    DecodeOfEncode(rt.stringify(claims));
    if Signature(rt, secret, header, body) == Signature(rt, other, header, body) {
      EncodeIsInjective(rt.hmac(secret, header + "." + body), rt.hmac(other, header + "." + body));
    }
  }

  /** What verifies is signed: nothing but the code of the first two parts can stand third. */
  lemma AcceptedTokenIsSigned(rt: Runtime, secret: string, token: string, nowMs: int)
    requires VerifyAccessToken(rt, secret, token, nowMs) != Err(AccessTokenInvalid)
    ensures exists header, body :: '.' !in header && '.' !in body
                                 && token == header + "." + body + "." + Signature(rt, secret, header, body)
  {
    hide Signature, Split;
    var parts := Split(token, '.');
    JoinOfSplit(token, '.');
    assert parts == [parts[0], parts[1], parts[2]];
    assert Join(parts[1..], '.') == parts[1] + "." + Join(parts[2..], '.');
    assert token == parts[0] + "." + parts[1] + "." + parts[2];
  }

  /** The access token of an opened session carries the account of that session. */
  lemma SessionCarriesItsAccount(cfg: AuthModel.Config, s: AuthModel.State, call: AuthModel.Call, env: AuthModel.Env)
    ensures var response := AuthModel.Step(cfg, s, call, env).1;
            response.Session? ==>
              response.tokens.accessToken == ClaimsFor(response.account.id, cfg.accessTtlSeconds, ["account"], env.now, env.jti)
  {
    hide AuthModel.IssueSession, AuthModel.NormalizeEmail, AuthModel.Provision, AuthModel.SendVerificationEmail, AuthModel.Patch;
    hide Accounts.Lookup;
    match call {
      case Register(_, _, _, _) =>
      case Login(_, _) =>
      case LoginWithGoogle(_, _, _) =>
      case _ =>
    }
  }
}
