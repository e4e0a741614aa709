/** The libraries the core calls into, kept abstract: the bcrypt password
    hasher of utils/password.go, HS256 signing and parsing of JSON Web
    Tokens by the golang-jwt library, and the database's evaluation of an
    inline SQL condition. The handlers receive these as function values;
    `Sound` lists the only facts the proofs assume of them. */
module Libraries {
  import opened Wrappers
  import opened Model
  import opened GoStrings

  /** A decoded JSON claim value. Numbers are integers here (Unix seconds,
      user ids); anything that is neither number nor string is `JOther`. */
  datatype JsonValue = JNum(n: int) | JStr(s: string) | JOther

  /** The untyped claims map of a token. */
  type Claims = map<string, JsonValue>

  /** What parsing a token gives: an error, or its claims together with the
      library's verdict on the token's validity. */
  datatype ParseOutcome = ParseFailed | Parsed(claims: Claims, valid: bool)

  datatype Oracles = Oracles(
    /** bcrypt.GenerateFromPassword with its error discarded */
    hash: string -> string,
    /** bcrypt.CompareHashAndPassword succeeding: (hashed, plaintext) */
    compare: (string, string) -> bool,
    /** signing claims with a secret; None when the library reports an error */
    sign: (Claims, string) -> Option<string>,
    /** jwt.Parse of a token with a secret at a clock reading */
    parse: (string, string, int) -> ParseOutcome,
    /** whether the text, run by the database as a WHERE condition on the
        users table, selects this row; text the database refuses to run
        selects no row */
    condition: (string, User) -> bool)

  /** The claims carry a numeric `exp` strictly before `now`. */
  predicate ExpiredAt(c: Claims, now: int) {
    "exp" in c && c["exp"].JNum? && c["exp"].n < now
  }

  /** The claims pass every time check of the JWT library's claims
      validation at `now`: an `exp` is numeric and not before `now`, and an
      `iat` or `nbf` is numeric and not after `now`. Absent claims pass. */
  predicate TimelyAt(c: Claims, now: int) {
    && ("exp" in c ==> c["exp"].JNum? && now <= c["exp"].n)
    && ("iat" in c ==> c["iat"].JNum? && c["iat"].n <= now)
    && ("nbf" in c ==> c["nbf"].JNum? && c["nbf"].n <= now)
  }

  /** bcrypt works on at most this many bytes of a password. Recent
      versions refuse a longer one with an error, which the password helper
      discards, storing the empty string as the hash. */
  const BcryptMaxBytes := 72

  /** The assumed behaviour of the oracles:
      - a password of at most `BcryptMaxBytes` bytes matches its own hash;
      - HMAC signing with a non-empty key does not fail;
      - a signed token is three base64url segments, so it has no space;
      - a token signed with a key parses back, valid, to the claims it was
        signed with, under the same key, at any clock reading where those
        claims pass the library's time checks (`TimelyAt`);
      - whenever a signed token parses at all, it parses to those claims. */
  ghost predicate Sound(o: Oracles) {
    && (forall p :: ByteLen(p) <= BcryptMaxBytes ==> o.compare(o.hash(p), p))
    && (forall c, key :: key != "" ==> o.sign(c, key).Some?)
    && (forall c, key :: o.sign(c, key).Some? ==> ' ' !in o.sign(c, key).value)
    && (forall c, key, now ::
          key != "" && o.sign(c, key).Some? && TimelyAt(c, now) ==>
          o.parse(o.sign(c, key).value, key, now) == Parsed(c, true))
    && (forall c, key, now ::
          o.sign(c, key).Some? && o.parse(o.sign(c, key).value, key, now).Parsed? ==>
          o.parse(o.sign(c, key).value, key, now).claims == c)
  }
}
