/** Properties that span several handlers, and concrete walk-throughs of
    the account flows, stated over the routed state machine. */
module Scenarios {
  import opened Wrappers
  import opened GoStrings
  import opened Model
  import opened Http
  import opened Database
  import opened Libraries
  import opened Token
  import opened Middleware
  import opened Router
  import Authentication
  import UserAdmin

  /** Register accepts a password of exactly six bytes and refuses five;
      the length is in bytes, so two three-byte characters also pass. */
  lemma PasswordBoundary(st: State, req: UserRequest, o: Oracles)
    requires st.Valid() && !EmailTaken(st.store, req.email)
    ensures Authentication.Register(st, Some(req.(password := "abcdef")), o).resp.status == StatusCreated
    ensures Authentication.Register(st, Some(req.(password := "abcde")), o).resp.status == StatusBadRequest
    ensures Authentication.Register(st, Some(req.(password := "\U{65E5}\U{672C}")), o).resp.status == StatusCreated
  {
  }

  /** Register and CreateUser check in opposite orders: for a taken email
      and a short password, Register answers 409 and CreateUser 400. */
  lemma ValidationOrderDiffers(st: State, req: UserRequest, o: Oracles)
    requires st.Valid()
    requires req.email != "" && EmailTaken(st.store, req.email)
    requires ByteLen(req.password) < PasswordMinBytes
    ensures Authentication.Register(st, Some(req), o).resp.status == StatusConflict
    ensures UserAdmin.CreateUser(st, Some(req), o).resp.status == StatusBadRequest
  {
  }

  /** Registering an email twice: the first succeeds, the second is a
      conflict and changes nothing. */
  lemma DuplicateRegistration(st: State, now: int, secret: string, o: Oracles)
    requires st.Valid() && !EmailTaken(st.store, "a@x.com")
    ensures
      var first := Serve(st, Request("", RegisterRoute(Some(UserRequest("a@x.com", "secret1", "Alice", "", "", ""))), now), secret, o);
      var second := Serve(first.st, Request("", RegisterRoute(Some(UserRequest("a@x.com", "other1", "Bob", "", "", ""))), now), secret, o);
      && first.resp.status == StatusCreated
      && second.resp.status == StatusConflict
      && second.st == first.st
  {
  }

  /** A wrong scheme is refused by the gate and no handler runs. */
  lemma WrongSchemeRejected(st: State, now: int, secret: string, o: Oracles)
    requires st.Valid()
    ensures Serve(st, Request("Token abc", ProfileRoute, now), secret, o)
            == Step(Error(StatusUnauthorized, BadFormat), st)
  {
    assert !HasPrefix("Token abc", Bearer) by {
      assert "Token abc"[..7] != Bearer by { assert "Token abc"[0] != Bearer[0]; }
    }
  }

  /** Logging out with a bearer token the gate admits puts exactly that
      token in the ledger. */
  lemma LogoutRevokes(st: State, t: string, secret: string, now: int, o: Oracles)
    requires st.Valid() && t !in st.revoked
    requires VerifyToken(t, secret, now, o).Ok? && !ExpiredAt(VerifyToken(t, secret, now, o).value, now)
    ensures var s := Serve(st, Request(Bearer + t, LogoutRoute, now), secret, o);
      s.resp.status == StatusOK && s.st == st.(revoked := st.revoked + {t})
  {
  }

  /** A profile request with a revoked token is refused as revoked and
      changes nothing. */
  lemma ProfileRefusesRevoked(st: State, t: string, secret: string, now: int, o: Oracles)
    requires st.Valid() && t in st.revoked
    ensures Serve(st, Request(Bearer + t, ProfileRoute, now), secret, o)
            == Step(Error(StatusUnauthorized, RevokedMsg), st)
  {
  }

  /** The finding on the routed program: after logging out with "Bearer t",
      a profile request sent as "Bearer Bearer t" passes the gate and is
      answered from the claims of t. */
  lemma DoubledHeaderAfterLogout(st: State, t: string, secret: string, now: int, o: Oracles)
    requires st.Valid() && t !in st.revoked && Bearer + t !in st.revoked
    requires !HasPrefix(t, Bearer)
    requires VerifyExact(t, secret, now, o).Ok? && !ExpiredAt(VerifyExact(t, secret, now, o).value, now)
    ensures var logout := Serve(st, Request(Bearer + t, LogoutRoute, now), secret, o);
      && logout.resp.status == StatusOK
      && t in logout.st.revoked
      && Serve(logout.st, Request(Bearer + t, ProfileRoute, now), secret, o)
         == Step(Error(StatusUnauthorized, RevokedMsg), logout.st)
      && Serve(logout.st, Request(Bearer + Bearer + t, ProfileRoute, now), secret, o)
         == Authentication.GetUserInfo(logout.st, VerifyExact(t, secret, now, o).value)
  {
    VerifyTokenStripsOnce(t, secret, now, o);
    LogoutRevokes(st, t, secret, now, o);
    var logout := Serve(st, Request(Bearer + t, LogoutRoute, now), secret, o);
    ProfileRefusesRevoked(logout.st, t, secret, now, o);
    TrimPrefixOnce(Bearer, t);
    assert Bearer + Bearer + t == Bearer + (Bearer + t);
  }

  /** Log in, log out, and the same token is then refused as revoked,
      although it has neither expired nor stopped verifying. */
  lemma LoginLogoutProfile(secret: string, now: int, o: Oracles)
    requires Sound(o) && secret != ""
    ensures
      var req := UserRequest("a@x.com", "secret1", "Alice", "", "", "");
      var reg := Serve(Initial, Request("", RegisterRoute(Some(req)), now), secret, o);
      var login := Serve(reg.st, Request("", LoginRoute(Some(AuthRequest("a@x.com", "secret1"))), now), secret, o);
      && reg.resp.status == StatusCreated
      && login.resp.status == StatusOK
      && var header := Bearer + login.resp.body.token;
      && var logout := Serve(login.st, Request(header, LogoutRoute, now), secret, o);
      && logout.resp.status == StatusOK
      && VerifyToken(login.resp.body.token, secret, now, o).Ok?
      && Serve(logout.st, Request(header, ProfileRoute, now), secret, o)
         == Step(Error(StatusUnauthorized, RevokedMsg), logout.st)
  {
    var req := UserRequest("a@x.com", "secret1", "Alice", "", "", "");
    var reg := Serve(Initial, Request("", RegisterRoute(Some(req)), now), secret, o);
    assert reg.resp.status == StatusCreated;
    Authentication.RegisterThenLogin(Initial, req, secret, now, o);
    var login := Serve(reg.st, Request("", LoginRoute(Some(AuthRequest("a@x.com", "secret1"))), now), secret, o);
    var u := reg.resp.body.user;
    var t := login.resp.body.token;
    assert login.st == reg.st;
    IssuedTokenVerifies(u, secret, now, now, o);
    assert o.parse(t, secret, now) == Parsed(IssuedClaims(u, now), true);
    LogoutRevokes(login.st, t, secret, now, o);
    var logout := Serve(login.st, Request(Bearer + t, LogoutRoute, now), secret, o);
    ProfileRefusesRevoked(logout.st, t, secret, now, o);
  }
}
