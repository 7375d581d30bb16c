/** The status catalog of src/constant/status.go: the numeric status codes
    the server declares (those of section 15 of RFC 9110 and a few more),
    their decimal rendering and their reason phrases.  A phrase holding a
    character outside ASCII is written as its UTF-8 octets, one `char` per
    octet, as Go's strings are. */
module Status {
  import opened Text

  type StatusCode = int

  const ContinueStatus: StatusCode := 100
  const SwitchingProtocolsStatus: StatusCode := 101
  const ProcessingStatus: StatusCode := 102
  const EarlyHintsStatus: StatusCode := 103
  const OkStatus: StatusCode := 200
  const CreatedStatus: StatusCode := 201
  const AcceptedStatus: StatusCode := 202
  const NonAuthoritativeInformationStatus: StatusCode := 203
  const NoContentStatus: StatusCode := 204
  const ResetContentStatus: StatusCode := 205
  const PartialContentStatus: StatusCode := 206
  const MultiStatusStatus: StatusCode := 207
  const AlreadyReportedStatus: StatusCode := 208
  const ImUsedStatus: StatusCode := 226
  const MultipleChoicesStatus: StatusCode := 300
  const MovedPermanentlyStatus: StatusCode := 301
  const FoundStatus: StatusCode := 302
  const SeeOtherStatus: StatusCode := 303
  const NotModifiedStatus: StatusCode := 304
  const UseProxyStatus: StatusCode := 305
  const SwitchProxyStatus: StatusCode := 306
  const TemporaryRedirectStatus: StatusCode := 307
  const PermanentRedirectStatus: StatusCode := 308
  const BadRequestStatus: StatusCode := 400
  const UnauthorizedStatus: StatusCode := 401
  const PaymentRequiredStatus: StatusCode := 402
  const ForbiddenStatus: StatusCode := 403
  const NotFoundStatus: StatusCode := 404
  const MethodNotAllowedStatus: StatusCode := 405
  const NotAcceptableStatus: StatusCode := 406
  const ProxyAuthenticationRequiredStatus: StatusCode := 407
  const RequestTimeoutStatus: StatusCode := 408
  const ConflictStatus: StatusCode := 409
  const GoneStatus: StatusCode := 410
  const LengthRequiredStatus: StatusCode := 411
  const PreconditionFailedStatus: StatusCode := 412
  const PayloadTooLargeStatus: StatusCode := 413
  const UriTooLongStatus: StatusCode := 414
  const UnsupportedMediaTypeStatus: StatusCode := 415
  const RangeNotSatisfiableStatus: StatusCode := 416
  const ExpectationFailedStatus: StatusCode := 417
  const ImATeapotStatus: StatusCode := 418
  const MisdirectedRequestStatus: StatusCode := 421
  const UnprocessableEntityStatus: StatusCode := 422
  const LockedStatus: StatusCode := 423
  const FailedDependencyStatus: StatusCode := 424
  const TooEarlyStatus: StatusCode := 425
  const UpgradeRequiredStatus: StatusCode := 426
  const PreconditionRequiredStatus: StatusCode := 428
  const TooManyRequestsStatus: StatusCode := 429
  const RequestHeaderFieldsTooLargeStatus: StatusCode := 431
  const UnavailableForLegalReasonsStatus: StatusCode := 451
  const InternalServerErrorStatus: StatusCode := 500
  const NotImplementedStatus: StatusCode := 501
  const BadGatewayStatus: StatusCode := 502
  const ServiceUnavailableStatus: StatusCode := 503
  const GatewayTimeoutStatus: StatusCode := 504
  const HttpVersionNotSupportedStatus: StatusCode := 505
  const VariantAlsoNegotiatesStatus: StatusCode := 506
  const InsufficientStorageStatus: StatusCode := 507
  const LoopDetectedStatus: StatusCode := 508
  const NotExtendedStatus: StatusCode := 510
  const NetworkAuthenticationRequiredStatus: StatusCode := 511

  /** `c` is one of the declared codes. */
  predicate Declared(c: StatusCode)
  {
    c == ContinueStatus || c == SwitchingProtocolsStatus || c == ProcessingStatus
    || c == EarlyHintsStatus || c == OkStatus || c == CreatedStatus
    || c == AcceptedStatus || c == NonAuthoritativeInformationStatus || c == NoContentStatus
    || c == ResetContentStatus || c == PartialContentStatus || c == MultiStatusStatus
    || c == AlreadyReportedStatus || c == ImUsedStatus || c == MultipleChoicesStatus
    || c == MovedPermanentlyStatus || c == FoundStatus || c == SeeOtherStatus
    || c == NotModifiedStatus || c == UseProxyStatus || c == SwitchProxyStatus
    || c == TemporaryRedirectStatus || c == PermanentRedirectStatus || c == BadRequestStatus
    || c == UnauthorizedStatus || c == PaymentRequiredStatus || c == ForbiddenStatus
    || c == NotFoundStatus || c == MethodNotAllowedStatus || c == NotAcceptableStatus
    || c == ProxyAuthenticationRequiredStatus || c == RequestTimeoutStatus || c == ConflictStatus
    || c == GoneStatus || c == LengthRequiredStatus || c == PreconditionFailedStatus
    || c == PayloadTooLargeStatus || c == UriTooLongStatus || c == UnsupportedMediaTypeStatus
    || c == RangeNotSatisfiableStatus || c == ExpectationFailedStatus || c == ImATeapotStatus
    || c == MisdirectedRequestStatus || c == UnprocessableEntityStatus || c == LockedStatus
    || c == FailedDependencyStatus || c == TooEarlyStatus || c == UpgradeRequiredStatus
    || c == PreconditionRequiredStatus || c == TooManyRequestsStatus || c == RequestHeaderFieldsTooLargeStatus
    || c == UnavailableForLegalReasonsStatus || c == InternalServerErrorStatus || c == NotImplementedStatus
    || c == BadGatewayStatus || c == ServiceUnavailableStatus || c == GatewayTimeoutStatus
    || c == HttpVersionNotSupportedStatus || c == VariantAlsoNegotiatesStatus || c == InsufficientStorageStatus
    || c == LoopDetectedStatus || c == NotExtendedStatus || c == NetworkAuthenticationRequiredStatus
  }

  /** `String`: the decimal rendering of the code. */
  function String(c: StatusCode): (s: string)
    ensures s != [] && (s[0] == '-' <==> c < 0)
    ensures DecimalValue(if c < 0 then s[1..] else s) == Some(if c < 0 then -c else c)
    ensures var ds := if c < 0 then s[1..] else s; ds != [] && (ds[0] != '0' || c == 0)
  {
    ItoaDigits(c);
    Itoa(c)
  }

  /** `Verb`: the reason phrase of a declared code, "Unknown" for any other. */
  function Verb(c: StatusCode): (r: string)
    ensures 100 <= c <= 511 || r == "Unknown"
  {
    match c
    case 100 => "Continue"
    case 101 => "Switching protocols"
    case 102 => "Processing"
    case 103 => "Early Hints"
    case 200 => "OK"
    case 201 => "Created"
    case 202 => "Accepted"
    case 203 => "Non-Authoritative Information"
    case 204 => "No Content"
    case 205 => "Reset Content"
    case 206 => "Partial Content"
    case 207 => "Multi-Status"
    case 208 => "Already Reported"
    case 226 => "IM Used"
    case 300 => "Multiple Choices"
    case 301 => "Moved Permanently"
    case 302 => "Found (Previously \U{E2}\U{80}\U{9C}Moved Temporarily\U{E2}\U{80}\U{9D})"
    case 303 => "See Other"
    case 304 => "Not Modified"
    case 305 => "Use Proxy"
    case 306 => "Switch Proxy"
    case 307 => "Temporary Redirect"
    case 308 => "Permanent Redirect"
    case 400 => "Bad Request"
    case 401 => "Unauthorized"
    case 402 => "Payment Required"
    case 403 => "Forbidden"
    case 404 => "Not Found"
    case 405 => "Method Not Allowed"
    case 406 => "Not Acceptable"
    case 407 => "Proxy Authentication Required"
    case 408 => "Request Timeout"
    case 409 => "Conflict"
    case 410 => "Gone"
    case 411 => "Length Required"
    case 412 => "Precondition Failed"
    case 413 => "Payload Too Large"
    case 414 => "URI Too Long"
    case 415 => "Unsupported Media Type"
    case 416 => "Range Not Satisfiable"
    case 417 => "Expectation Failed"
    case 418 => "I\U{E2}\U{80}\U{99}m a Teapot"
    case 421 => "Misdirected Request"
    case 422 => "Unprocessable Entity"
    case 423 => "Locked"
    case 424 => "Failed Dependency"
    case 425 => "Too Early"
    case 426 => "Upgrade Required"
    case 428 => "Precondition Required"
    case 429 => "Too Many Requests"
    case 431 => "Request Header Fields Too Large"
    case 451 => "Unavailable For Legal Reasons"
    case 500 => "Internal Server Error"
    case 501 => "Not Implemented"
    case 502 => "Bad Gateway"
    case 503 => "Service Unavailable"
    case 504 => "Gateway Timeout"
    case 505 => "HTTP Version Not Supported"
    case 506 => "Variant Also Negotiates"
    case 507 => "Insufficient Storage"
    case 508 => "Loop Detected"
    case 510 => "Not Extended"
    case 511 => "Network Authentication Required"
    case _ => "Unknown"
  }

  // ---------------------------------------------------------------------
  // Properties

  /** The rendering of a code reads back as that code. */
  lemma StringRoundTrip(c: StatusCode)
    requires MinInt64 <= c <= MaxInt64
    ensures Atoi(String(c)) == Some(c)
  {
    AtoiItoa(c);
  }

  /** A three-digit code renders as exactly three digits. */
  lemma StringThreeDigits(c: StatusCode)
    requires 100 <= c <= 999
    ensures |String(c)| == 3 && AllDigits(String(c))
  {
    assert DigitsOf(c) == DigitsOf(c / 10) + [DigitChar(c % 10)];
    assert DigitsOf(c / 10) == DigitsOf(c / 100) + [DigitChar(c / 10 % 10)];
  }

  /** The phrases of the codes the server's own paths use. */
  lemma VerbSamples()
    ensures Verb(OkStatus) == "OK"
    ensures Verb(UnauthorizedStatus) == "Unauthorized"
    ensures Verb(NotFoundStatus) == "Not Found"
  {
  }

  /** A code has a phrase other than "Unknown" exactly when it is declared. */
  lemma VerbKnownIffDeclared(c: StatusCode)
    ensures Verb(c) != "Unknown" <==> Declared(c)
  {
  }

  /** The declared codes, in the order of their declaration, ascend
      strictly from 100 to 511: they are pairwise distinct. */
  lemma DeclaredAscending()
    ensures ContinueStatus == 100 && NetworkAuthenticationRequiredStatus == 511
    ensures ContinueStatus < SwitchingProtocolsStatus < ProcessingStatus < EarlyHintsStatus <
      OkStatus < CreatedStatus < AcceptedStatus < NonAuthoritativeInformationStatus <
      NoContentStatus < ResetContentStatus < PartialContentStatus < MultiStatusStatus <
      AlreadyReportedStatus < ImUsedStatus < MultipleChoicesStatus < MovedPermanentlyStatus <
      FoundStatus < SeeOtherStatus < NotModifiedStatus < UseProxyStatus < SwitchProxyStatus <
      TemporaryRedirectStatus < PermanentRedirectStatus < BadRequestStatus < UnauthorizedStatus <
      PaymentRequiredStatus < ForbiddenStatus < NotFoundStatus < MethodNotAllowedStatus <
      NotAcceptableStatus < ProxyAuthenticationRequiredStatus < RequestTimeoutStatus <
      ConflictStatus < GoneStatus < LengthRequiredStatus < PreconditionFailedStatus <
      PayloadTooLargeStatus < UriTooLongStatus < UnsupportedMediaTypeStatus <
      RangeNotSatisfiableStatus < ExpectationFailedStatus < ImATeapotStatus <
      MisdirectedRequestStatus < UnprocessableEntityStatus < LockedStatus <
      FailedDependencyStatus < TooEarlyStatus < UpgradeRequiredStatus <
      PreconditionRequiredStatus < TooManyRequestsStatus < RequestHeaderFieldsTooLargeStatus <
      UnavailableForLegalReasonsStatus < InternalServerErrorStatus < NotImplementedStatus <
      BadGatewayStatus < ServiceUnavailableStatus < GatewayTimeoutStatus <
      HttpVersionNotSupportedStatus < VariantAlsoNegotiatesStatus < InsufficientStorageStatus <
      LoopDetectedStatus < NotExtendedStatus < NetworkAuthenticationRequiredStatus
  {
  }

  /** Every declared code lies in 100..511. */
  lemma DeclaredInRange(c: StatusCode)
    requires Declared(c)
    ensures 100 <= c <= 511
  {
  }
}
