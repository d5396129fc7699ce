/** The JWT claims of a logged-in user and the rules for issuing and checking them. */
module UserTokens {
  import opened Wrappers
  import opened Uuids

  /** The claims: expiry and issue time in Unix seconds (`i64`), and the user id as text. */
  datatype UserToken = UserToken(exp: int, iat: int, sub: string)

  datatype TokenError = Creation(reason: string) | Validation(reason: string) | Expired | Invalid

  /** The kinds of failure jsonwebtoken's `decode` reports. */
  datatype JwtErrorKind =
    | InvalidToken | InvalidSignature | InvalidEcdsaKey | InvalidRsaKey | RsaFailedSigning
    | InvalidAlgorithmName | InvalidKeyFormat | MissingRequiredClaim(claim: string)
    | ExpiredSignature | InvalidIssuer | InvalidAudience | InvalidSubject | ImmatureSignature
    | InvalidAlgorithm | MissingAlgorithm | Base64 | Json | Utf8 | Crypto

  /** `Duration::weeks(1)` in seconds. */
  const OneWeek: int := 7 * 24 * 60 * 60

  /** `UserToken::new`, with the clock reading `now` (Unix seconds) as a parameter. */
  function New(userId: Uuid, now: int): (t: UserToken)
    ensures t.iat == now && t.exp == now + 604800
    ensures t.sub == ToString(userId)
  {
    UserToken(now + OneWeek, now, ToString(userId))
  }

  /** `is_valid`: strictly before the expiry second. */
  predicate IsValid(t: UserToken, now: int)
  {
    t.exp > now
  }

  /** A freshly issued token is valid for exactly one week: at its expiry second it is not. */
  lemma ValidForOneWeek(userId: Uuid, issuedAt: int, now: int)
    ensures IsValid(New(userId, issuedAt), now) <==> now < issuedAt + OneWeek
    ensures !IsValid(New(userId, issuedAt), issuedAt + OneWeek)
  {
  }

  /** `generate_token`, with jsonwebtoken's `encode` as the parameter `encode`. */
  function GenerateToken(t: UserToken, secret: string,
                         encode: (UserToken, string) -> Result<string, string>): (r: Result<string, TokenError>)
    ensures encode(t, secret).Ok? ==> r == Ok(encode(t, secret).value)
    ensures encode(t, secret).Err? ==> r == Err(Creation(encode(t, secret).error))
  {
    match encode(t, secret)
    case Ok(s) => Ok(s)
    case Err(e) => Err(Creation(e))
  }

  /** `validate_token`, with jsonwebtoken's `decode` as the parameter `decode`. */
  function ValidateToken(token: string, secret: string,
                         decode: (string, string) -> Result<UserToken, JwtErrorKind>): (r: Result<UserToken, TokenError>)
    ensures decode(token, secret).Ok? ==> r == Ok(decode(token, secret).value)
    ensures decode(token, secret) == Err(ExpiredSignature) ==> r == Err(Expired)
    ensures decode(token, secret).Err? && decode(token, secret).error != ExpiredSignature ==> r == Err(Invalid)
    ensures r.Err? ==> r.error == Expired || r.error == Invalid
  {
    match decode(token, secret)
    case Ok(claims) => Ok(claims)
    case Err(kind) => if kind == ExpiredSignature then Err(Expired) else Err(Invalid)
  }

  /** `get_user_id`: the subject claim read back as a UUID. */
  function GetUserId(t: UserToken): Result<Uuid, UuidError>
  {
    Parse(t.sub)
  }

  /** A token made by `New` names the user it was made for. */
  lemma GetUserIdOfNew(userId: Uuid, now: int)
    ensures GetUserId(New(userId, now)) == Ok(userId)
  {
    ParseToString(userId);
  }
}
