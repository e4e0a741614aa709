/** The authorization gate of middleware/jwt.go: an ordered chain of checks
    that either rejects the request with 401 or admits it with the token's
    claims attached. The gate reads the ledger of revoked tokens and
    changes nothing. */
module Middleware {
  import opened Wrappers
  import opened GoStrings
  import opened Http
  import opened Libraries
  import opened Token

  const MissingJwt := "Missing or malformed JWT"
  const BadFormat := "Invalid Authorization format"
  const RevokedMsg := "Token has been revoked"
  const InvalidMsg := "Invalid or expired token"
  const ExpiredMsg := "Token has expired"

  datatype GateResult = Reject(resp: Response) | Admit(claims: Claims)

  /** The header checks shared by the gate and by logout: the header must be
      present and start with the exact "Bearer ", which is removed once. */
  function BearerToken(header: string): (r: Result<string>)
    ensures header == "" ==> r == Err(MissingJwt)
    ensures header != "" && !HasPrefix(header, Bearer) ==> r == Err(BadFormat)
    ensures r.Ok? <==> HasPrefix(header, Bearer)
    ensures r.Ok? ==> header == Bearer + r.value
  {
    if header == "" then Err(MissingJwt)
    else if HasPrefix(header, Bearer) then Ok(TrimPrefix(header, Bearer))
    else Err(BadFormat)
  }

  /** The last two steps: a failed verification, then an explicit `exp`
      before `now`, are rejected; everything else is admitted. */
  function Admission(v: Result<Claims>, now: int): (g: GateResult)
    ensures v.Err? ==> g == Reject(Error(StatusUnauthorized, InvalidMsg))
    ensures v.Ok? && ExpiredAt(v.value, now) ==> g == Reject(Error(StatusUnauthorized, ExpiredMsg))
    ensures g.Admit? <==> v.Ok? && !ExpiredAt(v.value, now)
    ensures g.Admit? ==> g.claims == v.value
  {
    match v
    case Err(_) => Reject(Error(StatusUnauthorized, InvalidMsg))
    case Ok(c) => if ExpiredAt(c, now) then Reject(Error(StatusUnauthorized, ExpiredMsg)) else Admit(c)
  }

  /** JWTAuthorization as written: the ledger is consulted with the header
      minus one "Bearer ", and that string then goes to VerifyToken, which
      removes one more "Bearer " if there is one. */
  function Gate(ledger: set<string>, header: string, secret: string, now: int, o: Oracles): (g: GateResult)
    ensures header == "" ==> g == Reject(Error(StatusUnauthorized, MissingJwt))
    ensures header != "" && !HasPrefix(header, Bearer) ==> g == Reject(Error(StatusUnauthorized, BadFormat))
    ensures HasPrefix(header, Bearer) && header[|Bearer|..] in ledger ==>
              g == Reject(Error(StatusUnauthorized, RevokedMsg))
    ensures HasPrefix(header, Bearer) && header[|Bearer|..] !in ledger
            && VerifyToken(header[|Bearer|..], secret, now, o).Err? ==>
              g == Reject(Error(StatusUnauthorized, InvalidMsg))
    ensures g.Reject? ==> g.resp.status == StatusUnauthorized
    ensures g.Admit? <==>
      && HasPrefix(header, Bearer)
      && header[|Bearer|..] !in ledger
      && VerifyToken(header[|Bearer|..], secret, now, o).Ok?
      && !ExpiredAt(VerifyToken(header[|Bearer|..], secret, now, o).value, now)
    ensures g.Admit? ==> VerifyToken(header[|Bearer|..], secret, now, o) == Ok(g.claims)
  {
    match BearerToken(header)
    case Err(m) => Reject(Error(StatusUnauthorized, m))
    case Ok(t) =>
      if t in ledger then Reject(Error(StatusUnauthorized, RevokedMsg))
      else Admission(VerifyToken(t, secret, now, o), now)
  }

  /** Whatever the verifier would say, a header whose stripped token is in
      the ledger is rejected as revoked, and an absent or malformed header
      is rejected before the ledger is read. */
  lemma GateOrderIgnoresVerifier(ledger: set<string>, ledger': set<string>, header: string,
                                  secret: string, secret': string, now: int, now': int,
                                  o: Oracles, o': Oracles)
    ensures BearerToken(header).Err? ==>
              Gate(ledger, header, secret, now, o) == Gate(ledger', header, secret', now', o')
    ensures BearerToken(header).Ok? && BearerToken(header).value in ledger ==>
              Gate(ledger, header, secret, now, o) == Gate(ledger, header, secret', now', o')
  {
  }

  /** The finding: a revoked token `t` is readmitted when it is sent as
      "Bearer Bearer t", although "Bearer t" itself is rejected. The ledger
      sees "Bearer t", which was never revoked, and VerifyToken strips the
      second prefix and verifies `t`. */
  lemma RevokedTokenReadmitted(t: string, secret: string, now: int, o: Oracles)
    requires secret != ""
    requires o.parse(t, secret, now).Parsed? && o.parse(t, secret, now).valid
    requires !ExpiredAt(o.parse(t, secret, now).claims, now)
    ensures Gate({t}, Bearer + t, secret, now, o) == Reject(Error(StatusUnauthorized, RevokedMsg))
    ensures Gate({t}, Bearer + Bearer + t, secret, now, o) == Admit(o.parse(t, secret, now).claims)
  {
  }

  /** The gate with the ledger check and the verification agreeing on one
      string: the token is the header minus one "Bearer ", and exactly that
      string is verified. */
  function GateCorrected(ledger: set<string>, header: string, secret: string, now: int, o: Oracles): (g: GateResult)
    ensures g.Reject? ==> g.resp.status == StatusUnauthorized
    ensures BearerToken(header).Err? ==> g == Reject(Error(StatusUnauthorized, BearerToken(header).msg))
    ensures g.Admit? ==>
      && HasPrefix(header, Bearer)
      && header[|Bearer|..] !in ledger
      && o.parse(header[|Bearer|..], secret, now) == Parsed(g.claims, true)
      && !ExpiredAt(g.claims, now)
  {
    match BearerToken(header)
    case Err(m) => Reject(Error(StatusUnauthorized, m))
    case Ok(t) =>
      if t in ledger then Reject(Error(StatusUnauthorized, RevokedMsg))
      else Admission(VerifyExact(t, secret, now, o), now)
  }

  /** The corrected gate honours the ledger: a revoked `t` is rejected, and
      the doubled header that slips past `Gate` no longer gets `t` verified;
      whatever it admits comes from verifying "Bearer " + t itself. */
  lemma GateCorrectedHonoursLedger(ledger: set<string>, t: string, secret: string, now: int, o: Oracles)
    requires t in ledger
    ensures GateCorrected(ledger, Bearer + t, secret, now, o) == Reject(Error(StatusUnauthorized, RevokedMsg))
    ensures var g := GateCorrected(ledger, Bearer + Bearer + t, secret, now, o);
            g.Admit? ==> o.parse(Bearer + t, secret, now) == Parsed(g.claims, true)
  {
    TrimPrefixOnce(Bearer, t);
    TrimPrefixOnce(Bearer, Bearer + t);
    assert Bearer + Bearer + t == Bearer + (Bearer + t);
  }

  /** The two gates differ only on headers whose token, once stripped, still
      starts with "Bearer ". */
  lemma GateCorrectedAgrees(ledger: set<string>, header: string, secret: string, now: int, o: Oracles)
    requires !HasPrefix(TrimPrefix(header, Bearer), Bearer)
    ensures Gate(ledger, header, secret, now, o) == GateCorrected(ledger, header, secret, now, o)
  {
  }

  /** Without prefix games the as-written gate admits a freshly issued
      token that is not revoked, with the claims it was issued with. */
  lemma GateAdmitsIssuedToken(ledger: set<string>, u: Model.User, secret: string, now: int, later: int, o: Oracles)
    requires Sound(o)
    requires secret != ""
    requires now <= later <= now + Lifetime
    requires GenerateToken(u, secret, now, o).Ok?
    requires GenerateToken(u, secret, now, o).value !in ledger
    ensures Gate(ledger, Bearer + GenerateToken(u, secret, now, o).value, secret, later, o)
            == Admit(IssuedClaims(u, now))
  {
    var t := GenerateToken(u, secret, now, o).value;
    TrimPrefixOnce(Bearer, t);
    IssuedTokenVerifies(u, secret, now, later, o);
  }
}
