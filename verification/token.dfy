/** Token issue and verification (utils/token.go). The JWT_SECRET
    environment variable is the `secret` parameter, and the clock is `now`,
    in Unix seconds. */
module Token {
  import opened Wrappers
  import opened GoStrings
  import opened Model
  import opened Libraries

  /** A token lives for 24 hours. */
  const Lifetime: int := 24 * 60 * 60

  const SecretUnset := "JWT_SECRET tidak diset"
  const SigningFailed := "signing failed"
  const TokenInvalid := "token tidak valid"

  /** The claims issued for user `u` at clock reading `now`. */
  function IssuedClaims(u: User, now: int): Claims {
    map[
      "user_id" := JNum(u.id),
      "email" := JStr(u.email),
      "issued_at" := JNum(now),
      "exp" := JNum(now + Lifetime)]
  }

  /** GenerateToken: refuses an empty secret, otherwise signs the user's
      claims. */
  function GenerateToken(u: User, secret: string, now: int, o: Oracles): (r: Result<string>)
    ensures secret == "" ==> r == Err(SecretUnset)
    ensures r.Ok? <==> secret != "" && o.sign(IssuedClaims(u, now), secret).Some?
    ensures r.Ok? ==> o.sign(IssuedClaims(u, now), secret) == Some(r.value)
  {
    if secret == "" then Err(SecretUnset)
    else match o.sign(IssuedClaims(u, now), secret)
      case None => Err(SigningFailed)
      case Some(t) => Ok(t)
  }

  /** The library's answer turned into claims or an error. */
  function Accept(p: ParseOutcome): Result<Claims> {
    match p
    case ParseFailed => Err(TokenInvalid)
    case Parsed(c, valid) => if valid then Ok(c) else Err(TokenInvalid)
  }

  /** Verification of exactly the given string, with no prefix handling. */
  function VerifyExact(token: string, secret: string, now: int, o: Oracles): (r: Result<Claims>)
    ensures secret == "" ==> r == Err(SecretUnset)
    ensures r.Ok? <==> secret != "" && o.parse(token, secret, now).Parsed? && o.parse(token, secret, now).valid
    ensures r.Ok? ==> o.parse(token, secret, now) == Parsed(r.value, true)
  {
    if secret == "" then Err(SecretUnset) else Accept(o.parse(token, secret, now))
  }

  /** VerifyToken: refuses an empty secret, strips one leading "Bearer ",
      and returns the claims only when the token parses and is valid. */
  function VerifyToken(token: string, secret: string, now: int, o: Oracles): (r: Result<Claims>)
    ensures secret == "" ==> r == Err(SecretUnset)
    ensures r.Ok? <==>
      && secret != ""
      && o.parse(TrimPrefix(token, Bearer), secret, now).Parsed?
      && o.parse(TrimPrefix(token, Bearer), secret, now).valid
    ensures r.Ok? ==> o.parse(TrimPrefix(token, Bearer), secret, now) == Parsed(r.value, true)
  {
    if secret == "" then Err(SecretUnset)
    else
      var stripped := TrimPrefix(token, Bearer);
      Accept(o.parse(stripped, secret, now))
  }

  /** A string without the prefix is verified as it stands; one with it is
      verified with exactly one copy removed. */
  lemma VerifyTokenStripsOnce(token: string, secret: string, now: int, o: Oracles)
    ensures !HasPrefix(token, Bearer) ==> VerifyToken(token, secret, now, o) == VerifyExact(token, secret, now, o)
    ensures VerifyToken(Bearer + token, secret, now, o) == VerifyExact(token, secret, now, o)
  {
  }

  /** A freshly issued token verifies, for the whole of its lifetime, to
      claims naming the user and expiring exactly 24 hours after issue. */
  lemma IssuedTokenVerifies(u: User, secret: string, now: int, later: int, o: Oracles)
    requires Sound(o)
    requires secret != ""
    requires now <= later <= now + Lifetime
    ensures GenerateToken(u, secret, now, o).Ok?
    ensures
      var r := VerifyToken(GenerateToken(u, secret, now, o).value, secret, later, o);
      && r == Ok(IssuedClaims(u, now))
      && r.value["user_id"] == JNum(u.id)
      && r.value["email"] == JStr(u.email)
      && r.value["issued_at"] == JNum(now)
      && r.value["exp"] == JNum(r.value["issued_at"].n + Lifetime)
  {
    var c := IssuedClaims(u, now);
    assert o.sign(c, secret).Some?;
    var t := o.sign(c, secret).value;
    BearerHasSpace(t);
    assert TimelyAt(c, later);
    assert o.parse(t, secret, later) == Parsed(c, true);
  }

  /** Once its lifetime is over, an issued token either fails to verify or
      verifies to claims that are expired. */
  lemma IssuedTokenExpires(u: User, secret: string, now: int, later: int, o: Oracles)
    requires Sound(o)
    requires GenerateToken(u, secret, now, o).Ok?
    requires later > now + Lifetime
    ensures
      var r := VerifyToken(GenerateToken(u, secret, now, o).value, secret, later, o);
      r.Ok? ==> ExpiredAt(r.value, later)
  {
  }
}
