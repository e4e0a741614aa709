/** The route table of router/router.go: register and login are open, every
    other route runs behind the authorization gate as written
    (`Middleware.Gate`). Each request brings its own clock reading; the
    signing secret is process configuration. */
module Router {
  import opened Wrappers
  import opened Model
  import opened Http
  import opened Database
  import opened Libraries
  import opened Middleware
  import Authentication
  import UserAdmin

  datatype Endpoint =
    | RegisterRoute(body: Option<UserRequest>)
    | LoginRoute(credentials: Option<AuthRequest>)
    | ProfileRoute
    | LogoutRoute
    | ListUsersRoute
    | UserDetailRoute(id: IdParam)
    | CreateUserRoute(body: Option<UserRequest>)
    | UpdateUserRoute(id: IdParam, body: Option<UserRequest>)
    | DeleteUserRoute(id: IdParam)
  {
    predicate Protected() {
      !(RegisterRoute? || LoginRoute?)
    }
  }

  datatype Request = Request(header: string, endpoint: Endpoint, now: int)

  /** The handler a protected route runs once the gate has admitted it. */
  function Handle(st: State, rq: Request, claims: Claims, o: Oracles): (s: Step)
    requires st.Valid() && rq.endpoint.Protected()
    ensures s.st.Valid()
    ensures st.revoked <= s.st.revoked
    ensures s.st.revoked != st.revoked ==> rq.endpoint.LogoutRoute?
    ensures SequenceKept(st.store, s.st.store)
    ensures rq.endpoint.ProfileRoute? ==> s == Authentication.GetUserInfo(st, claims)
    ensures rq.endpoint.LogoutRoute? ==> s == Authentication.Logout(st, rq.header)
    ensures rq.endpoint.ListUsersRoute? ==> s == UserAdmin.GetUsers(st)
    ensures rq.endpoint.UserDetailRoute? ==> s == UserAdmin.GetDetailUser(st, rq.endpoint.id, o)
    ensures rq.endpoint.CreateUserRoute? ==> s == UserAdmin.CreateUser(st, rq.endpoint.body, o)
    ensures rq.endpoint.UpdateUserRoute? ==>
              s == UserAdmin.UpdateUser(st, rq.endpoint.id, rq.endpoint.body, o)
    ensures rq.endpoint.DeleteUserRoute? ==> s == UserAdmin.DeleteUser(st, rq.endpoint.id)
  {
    match rq.endpoint
    case ProfileRoute => Authentication.GetUserInfo(st, claims)
    case LogoutRoute => Authentication.Logout(st, rq.header)
    case ListUsersRoute => UserAdmin.GetUsers(st)
    case UserDetailRoute(id) => UserAdmin.GetDetailUser(st, id, o)
    case CreateUserRoute(body) => UserAdmin.CreateUser(st, body, o)
    case UpdateUserRoute(id, body) => UserAdmin.UpdateUser(st, id, body, o)
    case DeleteUserRoute(id) => UserAdmin.DeleteUser(st, id)
  }

  /** One request: a protected route the gate rejects gets the gate's 401
      and runs no handler; an admitted one runs its handler exactly once on
      the claims the gate produced. The ledger only ever grows, and only
      through logout. */
  function Serve(st: State, rq: Request, secret: string, o: Oracles): (s: Step)
    requires st.Valid()
    ensures s.st.Valid()
    ensures st.revoked <= s.st.revoked
    ensures s.st.revoked != st.revoked ==> rq.endpoint.LogoutRoute?
    ensures SequenceKept(st.store, s.st.store)
    ensures rq.endpoint.RegisterRoute? ==> s == Authentication.Register(st, rq.endpoint.body, o)
    ensures rq.endpoint.LoginRoute? ==>
              s == Authentication.Login(st, rq.endpoint.credentials, secret, rq.now, o)
    ensures rq.endpoint.Protected() && Gate(st.revoked, rq.header, secret, rq.now, o).Reject? ==>
              s == Step(Gate(st.revoked, rq.header, secret, rq.now, o).resp, st)
    ensures rq.endpoint.Protected() && Gate(st.revoked, rq.header, secret, rq.now, o).Admit? ==>
              s == Handle(st, rq, Gate(st.revoked, rq.header, secret, rq.now, o).claims, o)
  {
    match rq.endpoint
    case RegisterRoute(body) => Authentication.Register(st, body, o)
    case LoginRoute(credentials) => Authentication.Login(st, credentials, secret, rq.now, o)
    case _ =>
      match Gate(st.revoked, rq.header, secret, rq.now, o)
      case Reject(resp) => Step(resp, st)
      case Admit(claims) => Handle(st, rq, claims, o)
  }

  /** A sequence of requests served one after another. */
  function Run(st: State, rqs: seq<Request>, secret: string, o: Oracles): (end: State)
    requires st.Valid()
    decreases |rqs|
    ensures end.Valid()
    ensures st.revoked <= end.revoked
    ensures SequenceKept(st.store, end.store)
    ensures (forall i :: 0 <= i < |rqs| ==> !rqs[i].endpoint.LogoutRoute?) ==> end.revoked == st.revoked
  {
    if |rqs| == 0 then st
    else Run(Serve(st, rqs[0], secret, o).st, rqs[1..], secret, o)
  }

  /** Revocation is permanent: once a token is in the ledger, no later
      sequence of requests lets it through the gate again. */
  lemma RevocationIsPermanent(st: State, rqs: seq<Request>, t: string, secret: string, now: int, o: Oracles)
    requires st.Valid() && t in st.revoked
    ensures var end := Run(st, rqs, secret, o);
      && t in end.revoked
      && Gate(end.revoked, GoStrings.Bearer + t, secret, now, o) == Reject(Error(StatusUnauthorized, RevokedMsg))
  {
  }

  /** A deleted id is never handed out again: after the delete, no sequence
      of requests puts a record under it. */
  lemma DeletedIdNeverReused(st: State, n: nat, rqs: seq<Request>, secret: string, o: Oracles)
    requires st.Valid()
    requires UserAdmin.DeleteUser(st, Key(n)).resp.status == StatusOK
    ensures n !in Run(UserAdmin.DeleteUser(st, Key(n)).st, rqs, secret, o).store.users
  {
  }
}
