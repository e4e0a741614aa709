/** The records of model/user.go. The revoked-token table of
    model/revoked-token.go is the set of token strings in `Database.State`. */
module Model {

  /** A stored account; `passwordHash` is whatever the password hasher returned. */
  datatype User = User(
    id: nat,
    email: string,
    passwordHash: string,
    fullname: string,
    address: string,
    gender: string,
    phoneNumber: string)

  /** The outward view of a user: every field except the password hash. */
  datatype UserDto = UserDto(
    id: nat,
    email: string,
    fullname: string,
    address: string,
    gender: string,
    phoneNumber: string)

  /** The body of a register, create or update request. */
  datatype UserRequest = UserRequest(
    email: string,
    password: string,
    fullname: string,
    address: string,
    gender: string,
    phoneNumber: string)

  /** Register and the admin create handler both require Go's `len` of the
      password, a count of bytes, to reach this. */
  const PasswordMinBytes := 6

  /** The body of a login request. */
  datatype AuthRequest = AuthRequest(email: string, password: string)

  function ToDto(u: User): UserDto {
    UserDto(u.id, u.email, u.fullname, u.address, u.gender, u.phoneNumber)
  }

  /** The projection forgets the password hash and nothing else: two users
      have the same view exactly when they differ at most in their hashes. */
  lemma ToDtoForgetsOnlyHash(u: User, v: User)
    ensures ToDto(u) == ToDto(v) <==> u.(passwordHash := v.passwordHash) == v
  {
  }

  /** `u` is the record built from request `req` with password hash `hash`
      (its id is whatever the database assigns). */
  predicate BuiltFrom(u: User, req: UserRequest, hash: string) {
    && u.email == req.email
    && u.passwordHash == hash
    && u.fullname == req.fullname
    && u.address == req.address
    && u.gender == req.gender
    && u.phoneNumber == req.phoneNumber
  }
}
