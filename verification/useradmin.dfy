/** The administrative handlers of controller/user.go as transitions of the
    state: list, detail, create, update and delete of user records. None of
    them touches the ledger of revoked tokens. */
module UserAdmin {
  import opened Wrappers
  import opened GoStrings
  import opened Model
  import opened Http
  import opened Database
  import opened Libraries

  const InvalidBody := "Invalid request body"
  const CreateRule := "Email and password are required, and password must be at least 6 characters"
  const EmailExists := "Email already exists"
  const NotFound := "User not found"
  const IdRequired := "User ID is required"
  const FetchFailed := "Failed to fetch user data"

  /** The views of the users stored under `ids`, in the order of `ids`. */
  function Views(users: map<nat, User>, ids: seq<nat>): (d: seq<UserDto>)
    requires forall i :: 0 <= i < |ids| ==> ids[i] in users
    ensures |d| == |ids|
    ensures forall i :: 0 <= i < |d| ==> d[i] == ToDto(users[ids[i]])
  {
    seq(|ids|, i requires 0 <= i < |ids| => ToDto(users[ids[i]]))
  }

  /** The listing lists the view of every stored user once, by ascending id. */
  predicate IsListing(s: Store, d: seq<UserDto>) {
    && |d| == |s.users|
    && (forall i :: 0 <= i < |d| ==> d[i].id in s.users && d[i] == ToDto(s.users[d[i].id]))
    && (forall i, j :: 0 <= i < j < |d| ==> d[i].id < d[j].id)
    && (forall k :: k in s.users ==> exists i :: 0 <= i < |d| && d[i].id == k)
  }

  lemma ViewsOfOrderedIds(s: Store)
    requires s.Valid()
    ensures IsListing(s, Views(s.users, OrderedIds(s)))
  {
  }

  /** GetUsers: one view per stored user, ascending by id, none with a
      password hash. */
  function GetUsers(st: State): (s: Step)
    requires st.Valid()
    ensures s.st == st
    ensures s.resp.status == StatusOK && s.resp.body.Profiles?
    ensures IsListing(st.store, s.resp.body.dtos)
  {
    ViewsOfOrderedIds(st.store);
    Step(Response(StatusOK, Profiles(Views(st.store.users, OrderedIds(st.store)))), st)
  }

  /** The rows `First(&user, id)` selects. An empty id adds no condition;
      the decimal literal of an integer is taken as the primary key; any
      other text is run as an inline SQL condition. */
  predicate Selects(id: IdParam, u: User, o: Oracles) {
    match id
    case NoId => true
    case Key(n) => u.id == n
    case Text(sql) => o.condition(sql, u)
  }

  /** GetDetailUser: the selected user with the smallest id, as a view;
      every failed lookup is 404. An integer id selects the user stored
      under it, but other text selects whatever it selects as SQL. */
  function GetDetailUser(st: State, id: IdParam, o: Oracles): (s: Step)
    requires st.Valid()
    ensures s.st == st
    ensures s.resp.status == StatusOK <==> exists k :: k in st.store.users && Selects(id, st.store.users[k], o)
    ensures id.Key? ==> (s.resp.status == StatusOK <==> Stored(st.store, id.n))
    ensures s.resp.status != StatusOK ==> s.resp == Error(StatusNotFound, NotFound)
    ensures s.resp.status == StatusOK ==>
              && s.resp.body.Profile?
              && var k := s.resp.body.dto.id;
              && k in st.store.users
              && s.resp.body.dto == ToDto(st.store.users[k])
              && Selects(id, st.store.users[k], o)
              && forall j :: j in st.store.users && Selects(id, st.store.users[j], o) ==> k <= j
  {
    match FindFirst(st.store, (u: User) => Selects(id, u, o))
    case None => Step(Error(StatusNotFound, NotFound), st)
    case Some(u) => Step(Response(StatusOK, Profile(ToDto(u))), st)
  }

  /** The input check of CreateUser: email and password present, password
      at least six bytes long. */
  predicate CreateInputOk(r: UserRequest) {
    r.email != "" && r.password != "" && ByteLen(r.password) >= PasswordMinBytes
  }

  /** CreateUser: the input check comes before the duplicate-email check,
      and the response is the view of the new record. */
  function CreateUser(st: State, req: Option<UserRequest>, o: Oracles): (s: Step)
    requires st.Valid()
    ensures s.st.Valid() && s.st.revoked == st.revoked
    ensures req.None? ==> s.resp.status == StatusBadRequest && s.st == st
    ensures req.Some? && !CreateInputOk(req.value) ==> s == Step(Error(StatusBadRequest, CreateRule), st)
    ensures req.Some? && CreateInputOk(req.value) && EmailTaken(st.store, req.value.email) ==>
              s == Step(Error(StatusConflict, EmailExists), st)
    ensures s.resp.status == StatusCreated <==>
              req.Some? && CreateInputOk(req.value) && !EmailTaken(st.store, req.value.email)
    ensures s.resp.status == StatusCreated ==>
              exists u ::
                && Added(st.store, s.st.store, u)
                && BuiltFrom(u, req.value, o.hash(req.value.password))
                && s.resp.body == Profile(ToDto(u))
  {
    match req
    case None => Step(Error(StatusBadRequest, InvalidBody), st)
    case Some(r) =>
      if r.email == "" || r.password == "" || ByteLen(r.password) < PasswordMinBytes then
        Step(Error(StatusBadRequest, CreateRule), st)
      else if FindByEmail(st.store, r.email).Some? then Step(Error(StatusConflict, EmailExists), st)
      else
        var u := User(st.store.nextId, r.email, o.hash(r.password),
                      r.fullname, r.address, r.gender, r.phoneNumber);
        Step(Response(StatusCreated, Profile(ToDto(u))), st.(store := Insert(st.store, u)))
  }

  /** The record after an update: every profile field and the email taken
      from the request as they are, the id kept, and the password hash
      replaced only when a new password is given. */
  function Updated(u: User, r: UserRequest, o: Oracles): (v: User)
    ensures v.id == u.id
    ensures r.password == "" ==> v.passwordHash == u.passwordHash
    ensures r.password != "" ==> v.passwordHash == o.hash(r.password)
    ensures BuiltFrom(v, r, v.passwordHash)
  {
    var w := u.(email := r.email, fullname := r.fullname, address := r.address,
                gender := r.gender, phoneNumber := r.phoneNumber);
    if r.password != "" then w.(passwordHash := o.hash(r.password)) else w
  }

  /** UpdateUser: the body is parsed first, then the id; no email
      uniqueness and no password length are checked. Every error leaves the
      state as it was. */
  function UpdateUser(st: State, id: IdParam, req: Option<UserRequest>, o: Oracles): (s: Step)
    requires st.Valid()
    ensures s.st.Valid() && s.st.revoked == st.revoked
    ensures s.resp.status != StatusOK ==> s.st == st
    ensures req.None? ==> s.resp.status == StatusBadRequest
    ensures req.Some? && id.NoId? ==> s.resp == Error(StatusBadRequest, IdRequired)
    ensures req.Some? && id.Text? ==> s.resp == Error(StatusInternalServerError, FetchFailed)
    ensures req.Some? && id.Key? && !Stored(st.store, id.n) ==> s.resp == Error(StatusNotFound, NotFound)
    ensures s.resp.status == StatusOK <==> req.Some? && id.Key? && Stored(st.store, id.n)
    ensures s.resp.status == StatusOK ==>
              && s.st.store.nextId == st.store.nextId
              && s.st.store.users.Keys == st.store.users.Keys
              && (forall k :: k in st.store.users && k != id.n ==> s.st.store.users[k] == st.store.users[k])
              && var before := st.store.users[id.n];
              && var after := s.st.store.users[id.n];
              && after.id == before.id
              && BuiltFrom(after, req.value, after.passwordHash)
              && (req.value.password == "" ==> after.passwordHash == before.passwordHash)
              && (req.value.password != "" ==> after.passwordHash == o.hash(req.value.password))
              && s.resp.body == Profile(ToDto(after))
  {
    match req
    case None => Step(Error(StatusBadRequest, InvalidBody), st)
    case Some(r) =>
      match id
      case NoId => Step(Error(StatusBadRequest, IdRequired), st)
      case Text(_) => Step(Error(StatusInternalServerError, FetchFailed), st)
      case Key(n) =>
        if !Stored(st.store, n) then Step(Error(StatusNotFound, NotFound), st)
        else
          var v := Updated(st.store.users[n], r, o);
          Step(Response(StatusOK, Profile(ToDto(v))),
               st.(store := st.store.(users := st.store.users[n := v])))
  }

  /** DeleteUser: removes exactly the addressed record, leaves every other
      one as it was, and answers with the deleted record in full. */
  function DeleteUser(st: State, id: IdParam): (s: Step)
    requires st.Valid()
    ensures s.st.Valid() && s.st.revoked == st.revoked
    ensures s.resp.status != StatusOK ==> s.st == st
    ensures id.NoId? ==> s.resp == Error(StatusBadRequest, IdRequired)
    ensures id.Text? ==> s.resp == Error(StatusInternalServerError, FetchFailed)
    ensures id.Key? && !Stored(st.store, id.n) ==> s.resp == Error(StatusNotFound, NotFound)
    ensures s.resp.status == StatusOK <==> id.Key? && Stored(st.store, id.n)
    ensures s.st.store.nextId == st.store.nextId
    ensures s.resp.status == StatusOK ==>
              && s.st.store.users.Keys == st.store.users.Keys - {id.n}
              && (forall k :: k in s.st.store.users ==> s.st.store.users[k] == st.store.users[k])
              && s.resp.body == FullUser(st.store.users[id.n])
  {
    match id
    case NoId => Step(Error(StatusBadRequest, IdRequired), st)
    case Text(_) => Step(Error(StatusInternalServerError, FetchFailed), st)
    case Key(n) =>
      if !Stored(st.store, n) then Step(Error(StatusNotFound, NotFound), st)
      else
        Step(Response(StatusOK, FullUser(st.store.users[n])),
             st.(store := st.store.(users := st.store.users - {n})))
  }

  /** An update may give a user the email of another, after which the
      email finds only the one with the smaller id. */
  lemma UpdateBreaksEmailUniqueness(st: State, a: nat, b: nat, req: UserRequest, o: Oracles)
    requires st.Valid()
    requires a in st.store.users && b in st.store.users && a < b
    requires req.email == st.store.users[a].email
    requires forall k :: k in st.store.users && k < a ==> st.store.users[k].email != req.email
    ensures var s := UpdateUser(st, Key(b), Some(req), o);
      && s.resp.status == StatusOK
      && s.st.store.users[a].email == s.st.store.users[b].email
      && FindByEmail(s.st.store, req.email) == Some(s.st.store.users[a])
  {
  }

  /** A user the admin handler creates is then found under its new id with
      the view the creation answered. */
  lemma CreateThenDetail(st: State, req: UserRequest, o: Oracles)
    requires st.Valid()
    requires CreateUser(st, Some(req), o).resp.status == StatusCreated
    ensures var c := CreateUser(st, Some(req), o);
      GetDetailUser(c.st, Key(st.store.nextId), o) == Step(Response(StatusOK, c.resp.body), c.st)
  {
  }

  /** Once deleted, an id is no longer found. */
  lemma DeleteThenDetail(st: State, n: int, o: Oracles)
    requires st.Valid()
    requires DeleteUser(st, Key(n)).resp.status == StatusOK
    ensures var d := DeleteUser(st, Key(n));
      GetDetailUser(d.st, Key(n), o) == Step(Error(StatusNotFound, NotFound), d.st)
  {
  }

  /** The detail of every listed id is exactly its entry in the listing. */
  lemma DetailAgreesWithListing(st: State, i: int, o: Oracles)
    requires st.Valid()
    requires 0 <= i < |GetUsers(st).resp.body.dtos|
    ensures var d := GetUsers(st).resp.body.dtos;
      GetDetailUser(st, Key(d[i].id), o) == Step(Response(StatusOK, Profile(d[i])), st)
  {
  }

  /** Text that selects every row, such as "1=1", answers the first user of
      the listing, while update and delete refuse the same text with 500. */
  lemma TextIdSelectsFirstUser(st: State, sql: string, req: UserRequest, o: Oracles)
    requires st.Valid() && |st.store.users| > 0
    requires !IsIntLiteral(sql)
    requires forall u :: o.condition(sql, u)
    ensures GetDetailUser(st, Text(sql), o)
            == Step(Response(StatusOK, Profile(GetUsers(st).resp.body.dtos[0])), st)
    ensures UpdateUser(st, Text(sql), Some(req), o).resp.status == StatusInternalServerError
    ensures DeleteUser(st, Text(sql)).resp.status == StatusInternalServerError
  {
  }
}
