/** The account flows of controller/authentication.go as transitions of the
    state: Register, Login, GetUserInfo and Logout. A request body that
    fails to parse is `None`. */
module Authentication {
  import opened Wrappers
  import opened GoStrings
  import opened Model
  import opened Http
  import opened Database
  import opened Libraries
  import opened Token
  import opened Middleware

  const InvalidPayload := "Invalid request payload"
  const EmailExists := "Email already exists"
  const PasswordRule := "Password is required and must be at least 6 characters long"
  const UserNotFound := "pengguna tidak ditemukan"
  const WrongPassword := "Password salah"
  const TokenFailed := "Gagal menghasilkan token"
  const BadClaims := "Klaim token tidak valid"
  const ProfileNotFound := "Pengguna tidak ditemukan"
  const RevokeFailed := "Failed to revoke token"
  const LoggedOut := "Successfully logged out"

  /** Register: the duplicate-email check comes before the password check,
      the email itself is never checked, and the created record, password
      hash included, is the response. */
  function Register(st: State, req: Option<UserRequest>, o: Oracles): (s: Step)
    requires st.Valid()
    ensures s.st.Valid() && s.st.revoked == st.revoked
    ensures req.None? ==> s == Step(Error(StatusBadRequest, InvalidPayload), st)
    ensures req.Some? && EmailTaken(st.store, req.value.email) ==>
              s == Step(Error(StatusConflict, EmailExists), st)
    ensures req.Some? && !EmailTaken(st.store, req.value.email)
            && ByteLen(req.value.password) < PasswordMinBytes ==>
              s == Step(Error(StatusBadRequest, PasswordRule), st)
    ensures s.resp.status == StatusCreated <==>
              req.Some? && !EmailTaken(st.store, req.value.email)
              && ByteLen(req.value.password) >= PasswordMinBytes
    ensures s.resp.status == StatusCreated ==>
              && s.resp.body.FullUser?
              && Added(st.store, s.st.store, s.resp.body.user)
              && BuiltFrom(s.resp.body.user, req.value, o.hash(req.value.password))
  {
    match req
    case None => Step(Error(StatusBadRequest, InvalidPayload), st)
    case Some(r) =>
      if FindByEmail(st.store, r.email).Some? then Step(Error(StatusConflict, EmailExists), st)
      else if r.password == "" || ByteLen(r.password) < PasswordMinBytes then
        Step(Error(StatusBadRequest, PasswordRule), st)
      else
        var u := User(st.store.nextId, r.email, o.hash(r.password),
                      r.fullname, r.address, r.gender, r.phoneNumber);
        Step(Response(StatusCreated, FullUser(u)), st.(store := Insert(st.store, u)))
  }

  /** Login: 404 for an unknown email, 401 for a wrong password, 500 when no
      token can be issued, and otherwise 200 with a token signed over the
      claims of the user the email finds. Nothing is changed. */
  function Login(st: State, req: Option<AuthRequest>, secret: string, now: int, o: Oracles): (s: Step)
    requires st.Valid()
    ensures s.st == st
    ensures req.None? ==> s.resp == Error(StatusBadRequest, InvalidPayload)
    ensures req.Some? && !EmailTaken(st.store, req.value.email) ==>
              s.resp == Error(StatusNotFound, UserNotFound)
    ensures s.resp.status == StatusUnauthorized <==>
              && req.Some?
              && EmailTaken(st.store, req.value.email)
              && !o.compare(FindByEmail(st.store, req.value.email).value.passwordHash, req.value.password)
    ensures s.resp.status == StatusInternalServerError <==>
              && req.Some?
              && EmailTaken(st.store, req.value.email)
              && o.compare(FindByEmail(st.store, req.value.email).value.passwordHash, req.value.password)
              && GenerateToken(FindByEmail(st.store, req.value.email).value, secret, now, o).Err?
    ensures s.resp.status == StatusOK <==>
              && req.Some?
              && EmailTaken(st.store, req.value.email)
              && o.compare(FindByEmail(st.store, req.value.email).value.passwordHash, req.value.password)
              && GenerateToken(FindByEmail(st.store, req.value.email).value, secret, now, o).Ok?
    ensures s.resp.status == StatusOK ==>
              s.resp.body == Token(GenerateToken(FindByEmail(st.store, req.value.email).value, secret, now, o).value)
    ensures s.resp.status == StatusOK ==>
              && req.Some?
              && s.resp.body.Token?
              && var u := FindByEmail(st.store, req.value.email).value;
              && u.email == req.value.email
              && o.compare(u.passwordHash, req.value.password)
              && o.sign(IssuedClaims(u, now), secret) == Some(s.resp.body.token)
  {
    match req
    case None => Step(Error(StatusBadRequest, InvalidPayload), st)
    case Some(r) =>
      match FindByEmail(st.store, r.email)
      case None => Step(Error(StatusNotFound, UserNotFound), st)
      case Some(u) =>
        if !o.compare(u.passwordHash, r.password) then Step(Error(StatusUnauthorized, WrongPassword), st)
        else match GenerateToken(u, secret, now, o)
          case Err(_) => Step(Error(StatusInternalServerError, TokenFailed), st)
          case Ok(t) => Step(Response(StatusOK, Token(t)), st)
  }

  /** The claims hold a numeric `user_id` and a string `email`. */
  predicate IdentityClaims(c: Claims) {
    && "user_id" in c && c["user_id"].JNum?
    && "email" in c && c["email"].JStr?
  }

  /** GetUserInfo: the claims must name a stored user by both id and email;
      that user is returned without its password hash. */
  function GetUserInfo(st: State, claims: Claims): (s: Step)
    requires st.Valid()
    ensures s.st == st
    ensures s.resp.status == StatusUnauthorized <==> !IdentityClaims(claims)
    ensures s.resp.status == StatusNotFound <==>
              && IdentityClaims(claims)
              && !(Stored(st.store, claims["user_id"].n)
                   && st.store.users[claims["user_id"].n].email == claims["email"].s)
    ensures s.resp.status == StatusOK ==>
              && IdentityClaims(claims)
              && Stored(st.store, claims["user_id"].n)
              && var u := st.store.users[claims["user_id"].n];
              && u.email == claims["email"].s
              && s.resp.body == Profile(ToDto(u))
    ensures s.resp.status in {StatusOK, StatusUnauthorized, StatusNotFound}
  {
    if !IdentityClaims(claims) then Step(Error(StatusUnauthorized, BadClaims), st)
    else
      var id := claims["user_id"].n;
      var email := claims["email"].s;
      if id >= 0 && id in st.store.users && st.store.users[id].email == email then
        Step(Response(StatusOK, Profile(ToDto(st.store.users[id]))), st)
      else Step(Error(StatusNotFound, ProfileNotFound), st)
  }

  /** Logout: the header checks of the gate again, then the token is added
      to the ledger, whose unique index makes a second insertion of the
      same string fail with 500. The users are never touched. */
  function Logout(st: State, header: string): (s: Step)
    ensures s.st.store == st.store
    ensures BearerToken(header).Err? ==> s == Step(Error(StatusUnauthorized, BearerToken(header).msg), st)
    ensures BearerToken(header).Ok? && BearerToken(header).value in st.revoked ==>
              s == Step(Error(StatusInternalServerError, RevokeFailed), st)
    ensures s.resp.status == StatusOK <==>
              BearerToken(header).Ok? && BearerToken(header).value !in st.revoked
    ensures s.resp.status == StatusOK ==>
              && BearerToken(header).value !in st.revoked
              && s.st.revoked == st.revoked + {BearerToken(header).value}
  {
    match BearerToken(header)
    case Err(m) => Step(Error(StatusUnauthorized, m), st)
    case Ok(t) =>
      if t in st.revoked then Step(Error(StatusInternalServerError, RevokeFailed), st)
      else Step(Response(StatusOK, Message(LoggedOut)), st.(revoked := st.revoked + {t}))
  }

  /** The claims the gate admits for a freshly issued token name their
      user, so the profile is that user's view. */
  lemma ProfileOfIssuedClaims(st: State, u: User, now: int)
    requires st.Valid() && u.id in st.store.users && st.store.users[u.id] == u
    ensures GetUserInfo(st, IssuedClaims(u, now)) == Step(Response(StatusOK, Profile(ToDto(u))), st)
  {
  }

  /** Registering and then logging in with the same credentials succeeds,
      and the token is issued for the account just created. */
  lemma RegisterThenLogin(st: State, req: UserRequest, secret: string, now: int, o: Oracles)
    requires st.Valid() && Sound(o) && secret != ""
    requires ByteLen(req.password) <= BcryptMaxBytes
    requires Register(st, Some(req), o).resp.status == StatusCreated
    ensures
      var reg := Register(st, Some(req), o);
      var s := Login(reg.st, Some(AuthRequest(req.email, req.password)), secret, now, o);
      && s.resp.status == StatusOK
      && o.sign(IssuedClaims(reg.resp.body.user, now), secret) == Some(s.resp.body.token)
  {
  }
}
