/**
 * The decision `AuthenticationMiddleware::call` makes for each request:
 * pass it to the wrapped service, or answer 401 without calling it.
 */
module Auth {
  import opened Wrappers
  import opened Text
  import opened UserTokens

  newtype Byte = x: int | 0 <= x < 256

  /** What the middleware reads of a request: its path and the raw Authorization header. */
  datatype Request = Request(path: string, authorization: Option<seq<Byte>>)

  datatype Decision = CallInner | Unauthorized

  /** The prefixes served without a token (the source lists the same one twice). */
  const ExcludedPaths: seq<string> := ["/api/users/auth", "/api/users/auth"]

  const AuthPrefix: string := "/api/users/auth"

  /** The secret the middleware decodes with. */
  const Secret: string := "SECRETKEY"

  const BearerPrefix: string := "Bearer "

  /** What `HeaderValue::to_str` accepts: visible ASCII and tab. */
  predicate IsVisibleAscii(b: Byte)
  {
    (32 <= b < 127) || b == 9
  }

  /** `HeaderValue::to_str`. */
  function HeaderToStr(h: seq<Byte>): (r: Option<string>)
    ensures r.Some? <==> forall i | 0 <= i < |h| :: IsVisibleAscii(h[i])
    ensures r.Some? ==> |r.value| == |h| && forall i | 0 <= i < |h| :: r.value[i] as int == h[i] as int
  {
    if forall i | 0 <= i < |h| :: IsVisibleAscii(h[i]) then Some(seq(|h|, i requires 0 <= i < |h| => h[i] as char))
    else None
  }

  /** `excluded_paths.iter().any(|p| path.starts_with(p))`. */
  function AnyPrefix(path: string, prefixes: seq<string>): (b: bool)
    ensures b <==> exists i :: 0 <= i < |prefixes| && StartsWith(path, prefixes[i])
  {
    if |prefixes| == 0 then false
    else StartsWith(path, prefixes[0]) || AnyPrefix(path, prefixes[1..])
  }

  /** The request is let through with the wrapped service called, or refused with 401. */
  function Call(req: Request, now: int,
                decode: (string, string) -> Result<UserToken, JwtErrorKind>): Decision
  {
    if AnyPrefix(req.path, ExcludedPaths) then CallInner
    else if req.authorization.None? then Unauthorized
    else
      match HeaderToStr(req.authorization.value)
      case None => Unauthorized
      case Some(authStr) =>
        if !StartsWith(authStr, BearerPrefix) then Unauthorized
        else
          match ValidateToken(authStr[7..], Secret, decode)
          case Ok(userToken) => if IsValid(userToken, now) then CallInner else Unauthorized
          case Err(_) => Unauthorized
  }

  /** The excluded list amounts to one prefix. */
  lemma ExcludedIsAuthPrefix(path: string)
    ensures AnyPrefix(path, ExcludedPaths) <==> StartsWith(path, AuthPrefix)
  {
    assert ExcludedPaths[0] == AuthPrefix;
    assert ExcludedPaths[1] == AuthPrefix;
  }

  /** Any path under `/api/users/auth` is passed on, whatever its headers. */
  lemma AuthPathsPass(req: Request, now: int, decode: (string, string) -> Result<UserToken, JwtErrorKind>)
    requires StartsWith(req.path, AuthPrefix)
    ensures Call(req, now, decode) == CallInner
  {
    ExcludedIsAuthPrefix(req.path);
  }

  /** Bytes of an ASCII text, as a client sends them. */
  function Bytes(s: string): (h: seq<Byte>)
    requires forall i | 0 <= i < |s| :: s[i] as int < 256
    ensures |h| == |s| && forall i | 0 <= i < |s| :: h[i] as int == s[i] as int
  {
    seq(|s|, i requires 0 <= i < |s| => s[i] as int as Byte)
  }

  predicate IsVisibleText(s: string)
  {
    forall i | 0 <= i < |s| :: (32 <= s[i] as int < 127) || s[i] as int == 9
  }

  /**
   * Beyond the excluded paths, a request passes exactly when its header reads
   * `Bearer <token>`, `<token>` decodes, and the claims have not expired; the
   * text checked is exactly what follows the seven-character prefix.
   */
  lemma BearerTokenDecides(path: string, token: string, now: int,
                           decode: (string, string) -> Result<UserToken, JwtErrorKind>)
    requires !StartsWith(path, AuthPrefix)
    requires IsVisibleText(token)
    ensures var header := Bytes(BearerPrefix + token);
            Call(Request(path, Some(header)), now, decode) == CallInner
            <==> decode(token, Secret).Ok? && decode(token, Secret).value.exp > now
  {
    ExcludedIsAuthPrefix(path);
    var text := BearerPrefix + token;
    var header := Bytes(text);
    assert forall i | 0 <= i < |header| :: IsVisibleAscii(header[i]) by {
      forall i | 0 <= i < |header| ensures IsVisibleAscii(header[i]) {
        if i >= 7 { assert text[i] == token[i - 7]; }
      }
    }
    var authStr := HeaderToStr(header).value;
    assert authStr == text;
    assert StartsWith(authStr, BearerPrefix);
    assert authStr[7..] == token;
  }

  /** A token that decodes but whose expiry has passed is refused. */
  lemma ExpiredTokenRefused(path: string, token: string, now: int,
                            decode: (string, string) -> Result<UserToken, JwtErrorKind>)
    requires !StartsWith(path, AuthPrefix)
    requires IsVisibleText(token)
    requires decode(token, Secret).Ok? && decode(token, Secret).value.exp <= now
    ensures Call(Request(path, Some(Bytes(BearerPrefix + token))), now, decode) == Unauthorized
  {
    BearerTokenDecides(path, token, now, decode);
  }

  /** Outside the excluded paths, no header, an unreadable header, or another scheme gives 401. */
  lemma NoBearerRefused(req: Request, now: int, decode: (string, string) -> Result<UserToken, JwtErrorKind>)
    requires !StartsWith(req.path, AuthPrefix)
    requires req.authorization.None?
          || HeaderToStr(req.authorization.value).None?
          || !StartsWith(HeaderToStr(req.authorization.value).value, BearerPrefix)
    ensures Call(req, now, decode) == Unauthorized
  {
    ExcludedIsAuthPrefix(req.path);
  }

  /** Whenever the wrapped service is called outside the excluded paths, a valid bearer token was shown. */
  lemma PassImpliesValidToken(req: Request, now: int, decode: (string, string) -> Result<UserToken, JwtErrorKind>)
    requires !StartsWith(req.path, AuthPrefix)
    requires Call(req, now, decode) == CallInner
    ensures req.authorization.Some?
    ensures var s := HeaderToStr(req.authorization.value);
            s.Some? && StartsWith(s.value, BearerPrefix)
            && decode(s.value[7..], Secret).Ok? && IsValid(decode(s.value[7..], Secret).value, now)
  {
    ExcludedIsAuthPrefix(req.path);
  }
}
