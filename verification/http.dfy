/** The HTTP surface of the handlers: status codes, response bodies and the
    `:id` route parameter. Bodies keep the data a response carries and the
    message of an error response; the success flags and the JSON envelope
    are not modelled. */
module Http {
  import opened Model

  const StatusOK := 200
  const StatusCreated := 201
  const StatusBadRequest := 400
  const StatusUnauthorized := 401
  const StatusNotFound := 404
  const StatusConflict := 409
  const StatusInternalServerError := 500

  datatype Body =
    | Message(text: string)
    | Token(token: string)
    | FullUser(user: User)
    | Profile(dto: UserDto)
    | Profiles(dtos: seq<UserDto>)

  datatype Response = Response(status: int, body: Body)

  function Error(status: int, text: string): Response {
    Response(status, Message(text))
  }

  /** Text `strconv.Atoi` reads as an integer: an optional sign followed by
      at least one decimal digit. */
  predicate IsIntLiteral(s: string) {
    if |s| > 0 && (s[0] == '+' || s[0] == '-') then IsDigits(s[1..]) else IsDigits(s)
  }

  predicate IsDigits(s: string) {
    |s| > 0 && forall i :: 0 <= i < |s| ==> '0' <= s[i] <= '9'
  }

  /** The `:id` route parameter: absent (the empty string), the decimal
      literal of an integer, or any other text. `Text` never holds an
      integer literal (`IsIntLiteral`); such text is always `Key`. What the
      database makes of other text depends on the query: compared with the
      integer key it is a query error, but passed on its own as the
      condition of `First` it runs as an inline SQL condition. */
  datatype IdParam = NoId | Key(n: int) | Text(sql: string)
}
