/** The status-code registry of enum/status_code.go: a closed table of
    HTTP-style status codes and their reason phrases, with lookup, validation
    and a defensive copy; and the general "error" status string of
    enum/status.go, which the API view of an error carries. The codes and
    phrases are those of section 15 of RFC 9110, plus 102 (RFC 2518),
    103 (RFC 8297), 207, 423, 424 and 507 (RFC 4918), 208 and 508
    (RFC 5842), 226 (RFC 3229), 418 (RFC 2324), 425 (RFC 8470), 428, 429,
    431 and 511 (RFC 6585), 451 (RFC 7725), 506 (RFC 2295) and
    510 (RFC 2774). */
module Status {

  import opened MapObjects

  datatype Option<+T> = None | Some(value: T)

  /** An HTTP-like status code: Go's defined type over `int`. Every integer
      converts to one; only the codes of the registry are known. */
  type StatusCode = int

  /** The general status string of a failed operation. */
  const ErrorStatus: string := "error"

  /** The description of a code that is not in the registry. */
  const UnknownStatusCode: string := "Unknown Status Code"

  // The named codes, class by class: 1xx informational, 2xx success,
  // 3xx redirection, 4xx client error, 5xx server error.
  const Continue: StatusCode := 100
  const SwitchingProtocols: StatusCode := 101
  const Processing: StatusCode := 102
  const EarlyHints: StatusCode := 103
  const OK: StatusCode := 200
  const Created: StatusCode := 201
  const Accepted: StatusCode := 202
  const NonAuthoritativeInformation: StatusCode := 203
  const NoContent: StatusCode := 204
  const ResetContent: StatusCode := 205
  const PartialContent: StatusCode := 206
  const MultiStatusCode: StatusCode := 207
  const AlreadyReported: StatusCode := 208
  const IMUsed: StatusCode := 226
  const MultipleChoices: StatusCode := 300
  const MovedPermanently: StatusCode := 301
  const Found: StatusCode := 302
  const SeeOther: StatusCode := 303
  const NotModified: StatusCode := 304
  const UseProxy: StatusCode := 305
  const TemporaryRedirect: StatusCode := 307
  const PermanentRedirect: StatusCode := 308
  const BadRequest: StatusCode := 400
  const Unauthorized: StatusCode := 401
  const PaymentRequired: StatusCode := 402
  const Forbidden: StatusCode := 403
  const NotFound: StatusCode := 404
  const MethodNotAllowed: StatusCode := 405
  const NotAcceptable: StatusCode := 406
  const ProxyAuthenticationRequired: StatusCode := 407
  const RequestTimeout: StatusCode := 408
  const Conflict: StatusCode := 409
  const Gone: StatusCode := 410
  const LengthRequired: StatusCode := 411
  const PreconditionFailed: StatusCode := 412
  const ContentTooLarge: StatusCode := 413
  const URITooLong: StatusCode := 414
  const UnsupportedMediaType: StatusCode := 415
  const RangeNotSatisfiable: StatusCode := 416
  const ExpectationFailed: StatusCode := 417
  const IMATeapot: StatusCode := 418
  const MisdirectedRequest: StatusCode := 421
  const UnprocessableContent: StatusCode := 422
  const Locked: StatusCode := 423
  const FailedDependency: StatusCode := 424
  const TooEarly: StatusCode := 425
  const UpgradeRequired: StatusCode := 426
  const PreconditionRequired: StatusCode := 428
  const TooManyRequests: StatusCode := 429
  const RequestHeaderFieldsTooLarge: StatusCode := 431
  const UnavailableForLegalReasons: StatusCode := 451
  const InternalServerError: StatusCode := 500
  const NotImplemented: StatusCode := 501
  const BadGateway: StatusCode := 502
  const ServiceUnavailable: StatusCode := 503
  const GatewayTimeout: StatusCode := 504
  const HTTPVersionNotSupported: StatusCode := 505
  const VariantAlsoNegotiates: StatusCode := 506
  const InsufficientStorage: StatusCode := 507
  const LoopDetected: StatusCode := 508
  const NotExtended: StatusCode := 510
  const NetworkAuthenticationRequired: StatusCode := 511

  /** The registry, class by class: the reason phrase of a registered code,
      None for every other integer. */
  function Phrase(c: StatusCode): Option<string> {
    if c < 100 then None
    else if c < 200 then InformationalPhrase(c)
    else if c < 300 then SuccessfulPhrase(c)
    else if c < 400 then RedirectionPhrase(c)
    else if c < 500 then ClientErrorPhrase(c)
    else if c < 600 then ServerErrorPhrase(c)
    else None
  }

  /** The registered 1xx (informational) codes. */
  function InformationalPhrase(c: StatusCode): Option<string> {
    match c
    case 100 => Some("Continue")
    case 101 => Some("Switching Protocols")
    case 102 => Some("Processing")
    case 103 => Some("Early Hints")
    case _ => None
  }

  /** The registered 2xx (successful) codes. */
  function SuccessfulPhrase(c: StatusCode): Option<string> {
    match c
    case 200 => Some("OK")
    case 201 => Some("Created")
    case 202 => Some("Accepted")
    case 203 => Some("Non-Authoritative Information")
    case 204 => Some("No Content")
    case 205 => Some("Reset Content")
    case 206 => Some("Partial Content")
    case 207 => Some("Multi-Status")
    case 208 => Some("Already Reported")
    case 226 => Some("IM Used")
    case _ => None
  }

  /** The registered 3xx (redirection) codes. */
  function RedirectionPhrase(c: StatusCode): Option<string> {
    match c
    case 300 => Some("Multiple Choices")
    case 301 => Some("Moved Permanently")
    case 302 => Some("Found")
    case 303 => Some("See Other")
    case 304 => Some("Not Modified")
    case 305 => Some("Use Proxy")
    case 307 => Some("Temporary Redirect")
    case 308 => Some("Permanent Redirect")
    case _ => None
  }

  /** The registered 4xx (client error) codes. */
  function ClientErrorPhrase(c: StatusCode): Option<string> {
    match c
    case 400 => Some("Bad Request")
    case 401 => Some("Unauthorized")
    case 402 => Some("Payment Required")
    case 403 => Some("Forbidden")
    case 404 => Some("Not Found")
    case 405 => Some("Method Not Allowed")
    case 406 => Some("Not Acceptable")
    case 407 => Some("Proxy Authentication Required")
    case 408 => Some("Request Timeout")
    case 409 => Some("Conflict")
    case 410 => Some("Gone")
    case 411 => Some("Length Required")
    case 412 => Some("Precondition Failed")
    case 413 => Some("Content Too Large")
    case 414 => Some("URI Too Long")
    case 415 => Some("Unsupported Media Type")
    case 416 => Some("Range Not Satisfiable")
    case 417 => Some("Expectation Failed")
    case 418 => Some("I'm a teapot")
    case 421 => Some("Misdirected Request")
    case 422 => Some("Unprocessable Content")
    case 423 => Some("Locked")
    case 424 => Some("Failed Dependency")
    case 425 => Some("Too Early")
    case 426 => Some("Upgrade Required")
    case 428 => Some("Precondition Required")
    case 429 => Some("Too Many Requests")
    case 431 => Some("Request Header Fields Too Large")
    case 451 => Some("Unavailable For Legal Reasons")
    case _ => None
  }

  /** The registered 5xx (server error) codes. */
  function ServerErrorPhrase(c: StatusCode): Option<string> {
    match c
    case 500 => Some("Internal Server Error")
    case 501 => Some("Not Implemented")
    case 502 => Some("Bad Gateway")
    case 503 => Some("Service Unavailable")
    case 504 => Some("Gateway Timeout")
    case 505 => Some("HTTP Version Not Supported")
    case 506 => Some("Variant Also Negotiates")
    case 507 => Some("Insufficient Storage")
    case 508 => Some("Loop Detected")
    case 510 => Some("Not Extended")
    case 511 => Some("Network Authentication Required")
    case _ => None
  }

  /** The registry as a map from code to phrase. A status code is a
      three-digit integer (section 15 of RFC 9110), which bounds the keys. */
  const StatusDescriptions: map<StatusCode, string> :=
    map c: StatusCode | 0 <= c < 1000 && Phrase(c).Some? :: Phrase(c).value

  /** `GetValue`: the integer form of a code. */
  function GetValue(c: StatusCode): int {
    c
  }

  /** `GetDescription`: the phrase of a registered code, the sentinel for any
      other. The sentinel is returned exactly for unregistered codes, and no
      description is empty. */
  function GetDescription(c: StatusCode): (d: string)
    ensures c in StatusDescriptions ==> d == StatusDescriptions[c]
    ensures d == UnknownStatusCode <==> c !in StatusDescriptions
    ensures d != ""
  {
    DescriptionsAreKnown();
    if c in StatusDescriptions then StatusDescriptions[c] else UnknownStatusCode
  }

  /** `NewStatusCode`: the code with the given value and true when it is
      registered; the zero code and false otherwise. */
  function NewStatusCode(value: int): (r: (StatusCode, bool))
    ensures r.1 <==> value in StatusDescriptions
    ensures r.1 ==> GetValue(r.0) == value
    ensures !r.1 ==> r.0 == 0 && r.0 !in StatusDescriptions
  {
    RegisteredCodesInClasses();
    var s: StatusCode := value;
    if s in StatusDescriptions then (s, true) else (0, false)
  }

  /** A registered code survives the trip through its integer form, and a
      value NewStatusCode accepts comes back unchanged. */
  lemma ValueRoundTrip(c: StatusCode, value: int)
    ensures c in StatusDescriptions ==> NewStatusCode(GetValue(c)) == (c, true)
    ensures NewStatusCode(value).1 ==> GetValue(NewStatusCode(value).0) == value
    ensures NewStatusCode(value).1 <==> GetDescription(value) != UnknownStatusCode
  {
  }

  /** `GetStatusTexts`: a new map holding every entry of the registry. */
  method GetStatusTexts() returns (copy: MapObject<StatusCode, string>)
    ensures fresh(copy)
    ensures copy.entries == StatusDescriptions
  {
    copy := new MapObject(map[]);
    var pending := StatusDescriptions.Keys;
    while pending != {}
      invariant pending <= StatusDescriptions.Keys
      invariant copy.entries.Keys == StatusDescriptions.Keys - pending
      invariant forall c :: c in copy.entries ==> copy.entries[c] == StatusDescriptions[c]
      decreases pending
    {
      var key :| key in pending;
      copy.Put(key, StatusDescriptions[key]);
      pending := pending - {key};
    }
  }

  /** Writing into one copy changes neither the registry nor a later copy. */
  method CopiesAreIndependent() returns (first: MapObject<StatusCode, string>, second: MapObject<StatusCode, string>)
    ensures first != second
    ensures OK in first.entries && first.entries[OK] == "Not OK"
    ensures second.entries == StatusDescriptions && second.entries[OK] == "OK"
    ensures first.entries != second.entries
  {
    first := GetStatusTexts();
    first.Put(OK, "Not OK");
    second := GetStatusTexts();
  }

  /** A phrase the registry may hold: non-empty and not the sentinel. */
  predicate IsKnownPhrase(p: Option<string>) {
    p.Some? ==> p.value != "" && p.value != UnknownStatusCode
  }

  /** Every registered description is non-empty and differs from the sentinel. */
  lemma DescriptionsAreKnown()
    ensures forall c :: c in StatusDescriptions ==>
      StatusDescriptions[c] != "" && StatusDescriptions[c] != UnknownStatusCode
  {
    InformationalPhrasesKnown();
    SuccessfulPhrasesKnown();
    RedirectionPhrasesKnown();
    ClientErrorPhrasesKnown();
    ServerErrorPhrasesKnown();
    forall c | c in StatusDescriptions
      ensures StatusDescriptions[c] != "" && StatusDescriptions[c] != UnknownStatusCode
    {
      assert IsKnownPhrase(Phrase(c));
    }
  }

  lemma InformationalPhrasesKnown()
    ensures forall c :: IsKnownPhrase(InformationalPhrase(c))
  {
  }

  lemma SuccessfulPhrasesKnown()
    ensures forall c :: IsKnownPhrase(SuccessfulPhrase(c))
  {
  }

  lemma RedirectionPhrasesKnown()
    ensures forall c :: IsKnownPhrase(RedirectionPhrase(c))
  {
  }

  lemma ClientErrorPhrasesKnown()
    ensures forall c :: IsKnownPhrase(ClientErrorPhrase(c))
  {
  }

  lemma ServerErrorPhrasesKnown()
    ensures forall c :: IsKnownPhrase(ServerErrorPhrase(c))
  {
  }

  /** The keys of m from lo up to, not including, hi. */
  ghost function KeysBetween(m: map<StatusCode, string>, lo: StatusCode, hi: StatusCode): set<StatusCode> {
    set c | c in m && lo <= c < hi
  }

  /** A run of consecutive keys counts its length. */
  lemma {:induction false} RunSize(m: map<StatusCode, string>, lo: StatusCode, hi: StatusCode)
    requires lo <= hi
    requires forall c :: lo <= c < hi ==> c in m
    ensures |KeysBetween(m, lo, hi)| == hi - lo
    decreases hi - lo
  {
    if lo < hi {
      assert KeysBetween(m, lo, hi) == KeysBetween(m, lo, hi - 1) + {hi - 1};
      RunSize(m, lo, hi - 1);
    }
  }

  /** A gap between keys counts nothing. */
  lemma GapSize(m: map<StatusCode, string>, lo: StatusCode, hi: StatusCode)
    requires forall c :: lo <= c < hi ==> c !in m
    ensures |KeysBetween(m, lo, hi)| == 0
  {
    assert KeysBetween(m, lo, hi) == {};
  }

  /** Counting the keys of two adjacent ranges separately. */
  lemma SplitSize(m: map<StatusCode, string>, lo: StatusCode, mid: StatusCode, hi: StatusCode)
    requires lo <= mid <= hi
    ensures |KeysBetween(m, lo, hi)| == |KeysBetween(m, lo, mid)| + |KeysBetween(m, mid, hi)|
  {
    assert KeysBetween(m, lo, hi) == KeysBetween(m, lo, mid) + KeysBetween(m, mid, hi);
    assert KeysBetween(m, lo, mid) * KeysBetween(m, mid, hi) == {};
  }

  // The registered codes of each class, as runs of consecutive codes.

  lemma InformationalCodes()
    ensures forall c :: InformationalPhrase(c).Some? <==> 100 <= c < 104
  {
  }

  lemma SuccessfulCodes()
    ensures forall c :: SuccessfulPhrase(c).Some? <==> 200 <= c < 209 || c == 226
  {
  }

  lemma RedirectionCodes()
    ensures forall c :: RedirectionPhrase(c).Some? <==> 300 <= c < 306 || 307 <= c < 309
  {
  }

  lemma ClientErrorCodes()
    ensures forall c :: ClientErrorPhrase(c).Some? <==>
      400 <= c < 419 || 421 <= c < 427 || 428 <= c < 430 || c == 431 || c == 451
  {
  }

  lemma ServerErrorCodes()
    ensures forall c :: ServerErrorPhrase(c).Some? <==> 500 <= c < 509 || 510 <= c < 512
  {
  }

  lemma InformationalCount()
    ensures |KeysBetween(StatusDescriptions, 100, 200)| == 4
  {
    InformationalCodes();
    RunSize(StatusDescriptions, 100, 104);
    GapSize(StatusDescriptions, 104, 200);
    SplitSize(StatusDescriptions, 100, 104, 200);
  }

  lemma SuccessfulCount()
    ensures |KeysBetween(StatusDescriptions, 200, 300)| == 10
  {
    SuccessfulCodes();
    RunSize(StatusDescriptions, 200, 209);
    GapSize(StatusDescriptions, 209, 226);
    RunSize(StatusDescriptions, 226, 227);
    GapSize(StatusDescriptions, 227, 300);
    SplitSize(StatusDescriptions, 200, 209, 300);
    SplitSize(StatusDescriptions, 209, 226, 300);
    SplitSize(StatusDescriptions, 226, 227, 300);
  }

  lemma RedirectionCount()
    ensures |KeysBetween(StatusDescriptions, 300, 400)| == 8
  {
    RedirectionCodes();
    RunSize(StatusDescriptions, 300, 306);
    GapSize(StatusDescriptions, 306, 307);
    RunSize(StatusDescriptions, 307, 309);
    GapSize(StatusDescriptions, 309, 400);
    SplitSize(StatusDescriptions, 300, 306, 400);
    SplitSize(StatusDescriptions, 306, 307, 400);
    SplitSize(StatusDescriptions, 307, 309, 400);
  }

  lemma ClientErrorCount()
    ensures |KeysBetween(StatusDescriptions, 400, 500)| == 29
  {
    ClientErrorCodes();
    RunSize(StatusDescriptions, 400, 419);
    GapSize(StatusDescriptions, 419, 421);
    RunSize(StatusDescriptions, 421, 427);
    GapSize(StatusDescriptions, 427, 428);
    RunSize(StatusDescriptions, 428, 430);
    GapSize(StatusDescriptions, 430, 431);
    RunSize(StatusDescriptions, 431, 432);
    GapSize(StatusDescriptions, 432, 451);
    RunSize(StatusDescriptions, 451, 452);
    GapSize(StatusDescriptions, 452, 500);
    SplitSize(StatusDescriptions, 400, 419, 500);
    SplitSize(StatusDescriptions, 419, 421, 500);
    SplitSize(StatusDescriptions, 421, 427, 500);
    SplitSize(StatusDescriptions, 427, 428, 500);
    SplitSize(StatusDescriptions, 428, 430, 500);
    SplitSize(StatusDescriptions, 430, 431, 500);
    SplitSize(StatusDescriptions, 431, 432, 500);
    SplitSize(StatusDescriptions, 432, 451, 500);
    SplitSize(StatusDescriptions, 451, 452, 500);
  }

  lemma ServerErrorCount()
    ensures |KeysBetween(StatusDescriptions, 500, 600)| == 11
  {
    ServerErrorCodes();
    RunSize(StatusDescriptions, 500, 509);
    GapSize(StatusDescriptions, 509, 510);
    RunSize(StatusDescriptions, 510, 512);
    GapSize(StatusDescriptions, 512, 600);
    SplitSize(StatusDescriptions, 500, 509, 600);
    SplitSize(StatusDescriptions, 509, 510, 600);
    SplitSize(StatusDescriptions, 510, 512, 600);
  }

  /** The registry holds exactly 62 codes. */
  lemma RegistrySize()
    ensures |StatusDescriptions| == 62
  {
    RegisteredCodesInClasses();
    assert StatusDescriptions.Keys == KeysBetween(StatusDescriptions, 100, 600);
    InformationalCount();
    SuccessfulCount();
    RedirectionCount();
    ClientErrorCount();
    ServerErrorCount();
    SplitSize(StatusDescriptions, 100, 200, 600);
    SplitSize(StatusDescriptions, 200, 300, 600);
    SplitSize(StatusDescriptions, 300, 400, 600);
    SplitSize(StatusDescriptions, 400, 500, 600);
  }

  /** Every registered code lies in one of the classes 1xx to 5xx; in
      particular 0, the failure result of NewStatusCode, is not registered. */
  lemma RegisteredCodesInClasses()
    ensures forall c :: c in StatusDescriptions ==> 100 <= c < 600
    ensures 0 !in StatusDescriptions
  {
  }

  /** Every named 1xx constant is registered under its own phrase. */
  lemma InformationalCodesRegistered()
    ensures Continue in StatusDescriptions && StatusDescriptions[Continue] == "Continue"
    ensures SwitchingProtocols in StatusDescriptions && StatusDescriptions[SwitchingProtocols] == "Switching Protocols"
    ensures Processing in StatusDescriptions && StatusDescriptions[Processing] == "Processing"
    ensures EarlyHints in StatusDescriptions && StatusDescriptions[EarlyHints] == "Early Hints"
  {
  }

  /** Every named 2xx constant is registered under its own phrase. */
  lemma SuccessfulCodesRegistered()
    ensures OK in StatusDescriptions && StatusDescriptions[OK] == "OK"
    ensures Created in StatusDescriptions && StatusDescriptions[Created] == "Created"
    ensures Accepted in StatusDescriptions && StatusDescriptions[Accepted] == "Accepted"
    ensures NonAuthoritativeInformation in StatusDescriptions && StatusDescriptions[NonAuthoritativeInformation] == "Non-Authoritative Information"
    ensures NoContent in StatusDescriptions && StatusDescriptions[NoContent] == "No Content"
    ensures ResetContent in StatusDescriptions && StatusDescriptions[ResetContent] == "Reset Content"
    ensures PartialContent in StatusDescriptions && StatusDescriptions[PartialContent] == "Partial Content"
    ensures MultiStatusCode in StatusDescriptions && StatusDescriptions[MultiStatusCode] == "Multi-Status"
    ensures AlreadyReported in StatusDescriptions && StatusDescriptions[AlreadyReported] == "Already Reported"
    ensures IMUsed in StatusDescriptions && StatusDescriptions[IMUsed] == "IM Used"
  {
  }

  /** Every named 3xx constant is registered under its own phrase. */
  lemma RedirectionCodesRegistered()
    ensures MultipleChoices in StatusDescriptions && StatusDescriptions[MultipleChoices] == "Multiple Choices"
    ensures MovedPermanently in StatusDescriptions && StatusDescriptions[MovedPermanently] == "Moved Permanently"
    ensures Found in StatusDescriptions && StatusDescriptions[Found] == "Found"
    ensures SeeOther in StatusDescriptions && StatusDescriptions[SeeOther] == "See Other"
    ensures NotModified in StatusDescriptions && StatusDescriptions[NotModified] == "Not Modified"
    ensures UseProxy in StatusDescriptions && StatusDescriptions[UseProxy] == "Use Proxy"
    ensures TemporaryRedirect in StatusDescriptions && StatusDescriptions[TemporaryRedirect] == "Temporary Redirect"
    ensures PermanentRedirect in StatusDescriptions && StatusDescriptions[PermanentRedirect] == "Permanent Redirect"
  {
  }

  /** Every named 4xx constant is registered under its own phrase. */
  lemma ClientErrorCodesRegistered()
    ensures BadRequest in StatusDescriptions && StatusDescriptions[BadRequest] == "Bad Request"
    ensures Unauthorized in StatusDescriptions && StatusDescriptions[Unauthorized] == "Unauthorized"
    ensures PaymentRequired in StatusDescriptions && StatusDescriptions[PaymentRequired] == "Payment Required"
    ensures Forbidden in StatusDescriptions && StatusDescriptions[Forbidden] == "Forbidden"
    ensures NotFound in StatusDescriptions && StatusDescriptions[NotFound] == "Not Found"
    ensures MethodNotAllowed in StatusDescriptions && StatusDescriptions[MethodNotAllowed] == "Method Not Allowed"
    ensures NotAcceptable in StatusDescriptions && StatusDescriptions[NotAcceptable] == "Not Acceptable"
    ensures ProxyAuthenticationRequired in StatusDescriptions && StatusDescriptions[ProxyAuthenticationRequired] == "Proxy Authentication Required"
    ensures RequestTimeout in StatusDescriptions && StatusDescriptions[RequestTimeout] == "Request Timeout"
    ensures Conflict in StatusDescriptions && StatusDescriptions[Conflict] == "Conflict"
    ensures Gone in StatusDescriptions && StatusDescriptions[Gone] == "Gone"
    ensures LengthRequired in StatusDescriptions && StatusDescriptions[LengthRequired] == "Length Required"
    ensures PreconditionFailed in StatusDescriptions && StatusDescriptions[PreconditionFailed] == "Precondition Failed"
    ensures ContentTooLarge in StatusDescriptions && StatusDescriptions[ContentTooLarge] == "Content Too Large"
    ensures URITooLong in StatusDescriptions && StatusDescriptions[URITooLong] == "URI Too Long"
    ensures UnsupportedMediaType in StatusDescriptions && StatusDescriptions[UnsupportedMediaType] == "Unsupported Media Type"
    ensures RangeNotSatisfiable in StatusDescriptions && StatusDescriptions[RangeNotSatisfiable] == "Range Not Satisfiable"
    ensures ExpectationFailed in StatusDescriptions && StatusDescriptions[ExpectationFailed] == "Expectation Failed"
    ensures IMATeapot in StatusDescriptions && StatusDescriptions[IMATeapot] == "I'm a teapot"
    ensures MisdirectedRequest in StatusDescriptions && StatusDescriptions[MisdirectedRequest] == "Misdirected Request"
    ensures UnprocessableContent in StatusDescriptions && StatusDescriptions[UnprocessableContent] == "Unprocessable Content"
    ensures Locked in StatusDescriptions && StatusDescriptions[Locked] == "Locked"
    ensures FailedDependency in StatusDescriptions && StatusDescriptions[FailedDependency] == "Failed Dependency"
    ensures TooEarly in StatusDescriptions && StatusDescriptions[TooEarly] == "Too Early"
    ensures UpgradeRequired in StatusDescriptions && StatusDescriptions[UpgradeRequired] == "Upgrade Required"
    ensures PreconditionRequired in StatusDescriptions && StatusDescriptions[PreconditionRequired] == "Precondition Required"
    ensures TooManyRequests in StatusDescriptions && StatusDescriptions[TooManyRequests] == "Too Many Requests"
    ensures RequestHeaderFieldsTooLarge in StatusDescriptions && StatusDescriptions[RequestHeaderFieldsTooLarge] == "Request Header Fields Too Large"
    ensures UnavailableForLegalReasons in StatusDescriptions && StatusDescriptions[UnavailableForLegalReasons] == "Unavailable For Legal Reasons"
  {
  }

  /** Every named 5xx constant is registered under its own phrase. */
  lemma ServerErrorCodesRegistered()
    ensures InternalServerError in StatusDescriptions && StatusDescriptions[InternalServerError] == "Internal Server Error"
    ensures NotImplemented in StatusDescriptions && StatusDescriptions[NotImplemented] == "Not Implemented"
    ensures BadGateway in StatusDescriptions && StatusDescriptions[BadGateway] == "Bad Gateway"
    ensures ServiceUnavailable in StatusDescriptions && StatusDescriptions[ServiceUnavailable] == "Service Unavailable"
    ensures GatewayTimeout in StatusDescriptions && StatusDescriptions[GatewayTimeout] == "Gateway Timeout"
    ensures HTTPVersionNotSupported in StatusDescriptions && StatusDescriptions[HTTPVersionNotSupported] == "HTTP Version Not Supported"
    ensures VariantAlsoNegotiates in StatusDescriptions && StatusDescriptions[VariantAlsoNegotiates] == "Variant Also Negotiates"
    ensures InsufficientStorage in StatusDescriptions && StatusDescriptions[InsufficientStorage] == "Insufficient Storage"
    ensures LoopDetected in StatusDescriptions && StatusDescriptions[LoopDetected] == "Loop Detected"
    ensures NotExtended in StatusDescriptions && StatusDescriptions[NotExtended] == "Not Extended"
    ensures NetworkAuthenticationRequired in StatusDescriptions && StatusDescriptions[NetworkAuthenticationRequired] == "Network Authentication Required"
  {
  }
}
