/** The older status catalog of constant/status.go, used by the legacy
    servers (server.go and server/server.go): six codes, and the phrase
    "Unknown Status Code" for every other one. */
module LegacyStatus {
  import opened Text

  type StatusCode = int

  const OK: StatusCode := 200
  const Created: StatusCode := 201
  const BadRequest: StatusCode := 400
  const Unauthorized: StatusCode := 401
  const NotFound: StatusCode := 404
  const InternalServerError: StatusCode := 500

  /** `String`: the decimal rendering of the code. */
  function String(c: StatusCode): (s: string)
    ensures s != [] && (s[0] == '-' <==> c < 0)
    ensures DecimalValue(if c < 0 then s[1..] else s) == Some(if c < 0 then -c else c)
    ensures var ds := if c < 0 then s[1..] else s; ds != [] && (ds[0] != '0' || c == 0)
  {
    ItoaDigits(c);
    Itoa(c)
  }

  /** `Verb`: the phrase of one of the six codes, "Unknown Status Code" otherwise. */
  function Verb(c: StatusCode): (r: string)
    ensures 200 <= c <= 500 || r == "Unknown Status Code"
  {
    match c
    case 200 => "OK"
    case 201 => "Created"
    case 400 => "Bad Request"
    case 401 => "Unauthorized"
    case 404 => "Not Found"
    case 500 => "Internal Server Error"
    case _ => "Unknown Status Code"
  }

  /** `c` is one of the six declared codes. */
  predicate Declared(c: StatusCode)
  {
    c in {OK, Created, BadRequest, Unauthorized, NotFound, InternalServerError}
  }

  /** The rendering of a code reads back as that code. */
  lemma StringRoundTrip(c: StatusCode)
    requires MinInt64 <= c <= MaxInt64
    ensures Atoi(String(c)) == Some(c)
  {
    AtoiItoa(c);
  }

  /** The phrase of each declared code. */
  lemma VerbTable()
    ensures Verb(OK) == "OK" && Verb(Created) == "Created"
    ensures Verb(BadRequest) == "Bad Request" && Verb(Unauthorized) == "Unauthorized"
    ensures Verb(NotFound) == "Not Found" && Verb(InternalServerError) == "Internal Server Error"
  {
  }

  /** A code falls back to "Unknown Status Code" exactly when it is not declared. */
  lemma VerbFallback(c: StatusCode)
    ensures Verb(c) == "Unknown Status Code" <==> !Declared(c)
  {
  }

  /** The six declared codes are distinct: they ascend in declaration order. */
  lemma DeclaredAscending()
    ensures OK < Created < BadRequest < Unauthorized < NotFound < InternalServerError
  {
  }
}
