/**
 * The exception package: `CoreException`, the record an application
 * raises when a request fails. It carries a human-readable message, the
 * HTTP status code of the failure, a bag of details (a Go
 * `map[string]interface{}`) and the stack trace at the point of creation.
 * Its methods render that record in two shapes: a flat map for API
 * responses and a nested map for structured logs.
 */
module Exception {
  import opened MapObjects
  import opened Status

  /** A value of the detail bag, that is, a Go `interface{}` as far as the
      package looks into it: a string, an int, a nested
      `map[string]interface{}`, or anything else (a bool, a float, a slice,
      nil, ...), which the package only copies around. */
  datatype Value =
    | Str(s: string)
    | Int(n: int)
    | Obj(fields: map<string, Value>)
    | Other

  /** The contents of a detail bag. */
  type Bag = map<string, Value>

  /** The comma-ok type assertion `bag[key].(string)`: the string stored
      under `key` and true, or the zero string and false when the key is
      missing or holds a value of another type. */
  function StringAt(bag: Bag, key: string): (r: (string, bool))
    ensures r.1 <==> key in bag && bag[key].Str?
    ensures r.1 ==> bag[key] == Str(r.0)
    ensures !r.1 ==> r.0 == ""
  {
    if key in bag && bag[key].Str? then (bag[key].s, true) else ("", false)
  }

  /** The bag names its own message: a non-empty string under "message". */
  predicate HasExplicitMessage(bag: Bag) {
    StringAt(bag, "message").1 && StringAt(bag, "message").0 != ""
  }

  /** The message NewInstance settles on: the bag's own message when it has
      one, the registry description of the default code otherwise. */
  function ResolvedMessage(bag: Bag, defaultStatusCode: StatusCode): (m: string)
    ensures m != ""
    ensures HasExplicitMessage(bag) ==> bag["message"] == Str(m)
    ensures !HasExplicitMessage(bag) ==> m == GetDescription(defaultStatusCode)
  {
    var (message, ok) := StringAt(bag, "message");
    if !ok || message == "" then GetDescription(defaultStatusCode) else message
  }

  /** The bag NewInstance leaves behind: a consumed message is removed, and
      nothing else is touched. */
  function RemainingErrors(bag: Bag): (r: Bag)
    ensures HasExplicitMessage(bag) ==> r.Keys == bag.Keys - {"message"}
    ensures !HasExplicitMessage(bag) ==> r == bag
    ensures forall k :: k in r ==> k in bag && r[k] == bag[k]
  {
    if HasExplicitMessage(bag) then bag - {"message"} else bag
  }

  /** The nested map under "details", or an empty map when there is none or
      it is not a map. */
  function Details(bag: Bag): (d: Bag)
    ensures "details" in bag && bag["details"].Obj? ==> d == bag["details"].fields
    ensures !("details" in bag && bag["details"].Obj?) ==> d == map[]
  {
    if "details" in bag && bag["details"].Obj? then bag["details"].fields else map[]
  }

  /** The string under "error" inside the details, or "" when any step of
      the lookup is missing or of the wrong type. */
  function DetailsMessage(bag: Bag): string {
    StringAt(Details(bag), "error").0
  }

  /** The log shape: four fixed keys, the whole bag nested under "errors". */
  function LogView(message: string, code: int, errors: Bag, stackTrace: string): (v: Bag)
    ensures v.Keys == {"message", "status_code", "errors", "stack_trace"}
    ensures v["message"] == Str(message) && v["status_code"] == Int(code)
    ensures v["errors"] == Obj(errors) && v["stack_trace"] == Str(stackTrace)
  {
    map["message" := Str(message), "status_code" := Int(code),
        "errors" := Obj(errors), "stack_trace" := Str(stackTrace)]
  }

  /** The three fields every API response starts from. */
  function BaseView(code: int, message: string): Bag {
    map["status" := Str(ErrorStatus), "error_code" := Int(code), "message" := Str(message)]
  }

  /** The API shape: the base fields with every detail copied over them, so
      a detail wins when its key collides with a base field. */
  function ApiView(code: int, message: string, errors: Bag): (v: Bag)
    ensures v.Keys == {"status", "error_code", "message"} + errors.Keys
    ensures forall k :: k in errors ==> v[k] == errors[k]
    ensures "status" !in errors ==> v["status"] == Str(ErrorStatus)
    ensures "error_code" !in errors ==> v["error_code"] == Int(code)
    ensures "message" !in errors ==> v["message"] == Str(message)
  {
    BaseView(code, message) + errors
  }

  /** The exception record. Its fields are set once, at construction; the
      detail bag is shared with the caller (a Go map is a reference), so it
      is read through `reads Errors`. */
  class CoreException {
    const Message: string
    const StatusCode: Status.StatusCode
    const Errors: MapObject?<string, Value>
    const StackTrace: string

    constructor (message: string, statusCode: Status.StatusCode,
                 errors: MapObject?<string, Value>, stackTrace: string)
      ensures Message == message && StatusCode == statusCode
      ensures Errors == errors && StackTrace == stackTrace
    {
      Message := message;
      StatusCode := statusCode;
      Errors := errors;
      StackTrace := stackTrace;
    }

    /** The `error` interface: the message. */
    function Error(): string {
      Message
    }

    /** The status code as an integer. */
    function GetStatusCode(): int {
      GetValue(StatusCode)
    }

    /** The detail bag itself, not a copy. */
    function GetErrors(): MapObject?<string, Value> {
      Errors
    }

    function GetDetails(): Bag
      reads Errors
    {
      Details(Contents(Errors))
    }

    function GetDetailsMessage(): string
      reads Errors
    {
      DetailsMessage(Contents(Errors))
    }

    function GetErrorsForLog(): Bag
      reads Errors
    {
      LogView(Message, GetStatusCode(), Contents(Errors), StackTrace)
    }

    function GetStackTrace(): string {
      StackTrace
    }

    /** Builds the API shape: the base fields, then every detail copied in
        one at a time. */
    method Format() returns (formatted: Bag)
      ensures formatted == ApiView(GetStatusCode(), Message, Contents(Errors))
    {
      formatted := BaseView(GetStatusCode(), Message);
      if Errors != null {
        var pending := Errors.entries.Keys;
        while pending != {}
          invariant pending <= Errors.entries.Keys
          invariant formatted.Keys == BaseView(GetStatusCode(), Message).Keys + (Errors.entries.Keys - pending)
          invariant forall k :: k in Errors.entries && k !in pending ==> formatted[k] == Errors.entries[k]
          invariant forall k :: k in BaseView(GetStatusCode(), Message) && (k !in Errors.entries || k in pending) ==>
            formatted[k] == BaseView(GetStatusCode(), Message)[k]
          decreases pending
        {
          var key :| key in pending;
          formatted := formatted[key := Errors.entries[key]];
          pending := pending - {key};
        }
      }
    }
  }

  /** Creates an exception from a detail bag and a default status code. A
      non-empty string under "message" becomes the message and is deleted
      from the caller's bag; otherwise the message is the description of
      the code and the bag is left alone. The stack trace is a parameter. */
  method NewInstance(errors: MapObject?<string, Value>, defaultStatusCode: StatusCode,
                     stackTrace: string) returns (e: CoreException)
    modifies errors
    ensures fresh(e)
    ensures e.Error() == ResolvedMessage(old(Contents(errors)), defaultStatusCode)
    ensures e.StatusCode == defaultStatusCode && e.GetStatusCode() == defaultStatusCode
    ensures e.GetErrors() == errors && e.GetStackTrace() == stackTrace
    ensures Contents(errors) == RemainingErrors(old(Contents(errors)))
  {
    var (message, ok) := StringAt(Contents(errors), "message");
    if !ok || message == "" {
      message := GetDescription(defaultStatusCode);
    } else {
      errors.Delete("message");
    }
    e := new CoreException(message, defaultStatusCode, errors, stackTrace);
  }

  /** The "message" field of the API shape of a fresh exception is the
      caller's own "message" entry whenever the caller gave one, of any type,
      and the description of the code otherwise. It agrees with the
      exception's message exactly when the caller gave none or gave a
      non-empty string. */
  lemma FormattedMessage(bag: Bag, code: StatusCode)
    ensures ApiView(code, ResolvedMessage(bag, code), RemainingErrors(bag))["message"]
      == if "message" in bag then bag["message"] else Str(GetDescription(code))
    ensures (ApiView(code, ResolvedMessage(bag, code), RemainingErrors(bag))["message"]
               == Str(ResolvedMessage(bag, code)))
      <==> ("message" !in bag || HasExplicitMessage(bag))
  {
    var v := ApiView(code, ResolvedMessage(bag, code), RemainingErrors(bag));
    if HasExplicitMessage(bag) {
      assert "message" !in RemainingErrors(bag);
    } else if "message" in bag {
      assert v["message"] == bag["message"];
      if bag["message"].Str? {
        assert bag["message"].s == "";
      }
    }
  }

  /** A detail stored under a base key replaces the base field: with a
      "status" detail the response no longer says "error". */
  lemma DetailsOverrideBaseFields(code: int, message: string, errors: Bag)
    ensures "status" in errors ==>
      (ApiView(code, message, errors)["status"] == Str(ErrorStatus) <==> errors["status"] == Str(ErrorStatus))
    ensures "error_code" in errors ==>
      (ApiView(code, message, errors)["error_code"] == Int(code) <==> errors["error_code"] == Int(code))
    ensures "message" in errors ==>
      (ApiView(code, message, errors)["message"] == Str(message) <==> errors["message"] == Str(message))
  {
  }

  /** The API view has the three base fields plus one entry for each detail
      key that is not a base key. */
  lemma ApiViewSize(code: int, message: string, errors: Bag)
    ensures |ApiView(code, message, errors)| == 3 + |errors.Keys - {"status", "error_code", "message"}|
  {
    var base: set<string> := {"status", "error_code", "message"};
    var rest := errors.Keys - base;
    assert ApiView(code, message, errors).Keys == base + rest;
    assert base !! rest;
    assert |base| == 3;
  }

  /** A non-nil bag whose "details" entry is a nested map. */
  predicate HoldsDetailsMap(errors: MapObject?<string, Value>)
    reads errors
  {
    errors != null && "details" in errors.entries && errors.entries["details"].Obj?
  }

  /** GetDetails on an exception: the map under "details" of the shared bag
      when there is one, and the empty map otherwise, in particular when the
      bag is nil. */
  lemma GetDetailsAccessor(e: CoreException)
    ensures e.GetErrors() == null ==> e.GetDetails() == map[]
    ensures HoldsDetailsMap(e.GetErrors()) ==>
      e.GetDetails() == e.GetErrors().entries["details"].fields
    ensures !HoldsDetailsMap(e.GetErrors()) ==> e.GetDetails() == map[]
  {
  }

  /** GetDetailsMessage on an exception: the string under "error" of
      GetDetails, and "" when there is none, in particular when the bag is
      nil. */
  lemma GetDetailsMessageAccessor(e: CoreException)
    ensures e.GetErrors() == null ==> e.GetDetailsMessage() == ""
    ensures e.GetDetailsMessage() != "" ==>
      "error" in e.GetDetails() && e.GetDetails()["error"] == Str(e.GetDetailsMessage())
    ensures "error" in e.GetDetails() && e.GetDetails()["error"].Str? ==>
      e.GetDetails()["error"] == Str(e.GetDetailsMessage())
    ensures !("error" in e.GetDetails() && e.GetDetails()["error"].Str?) ==>
      e.GetDetailsMessage() == ""
  {
  }

  /** The log shape never collides: whatever the bag holds, the message,
      code and trace are the exception's own and the bag is kept whole. */
  lemma LogViewKeepsReservedFields(e: CoreException)
    ensures e.GetErrorsForLog()["message"] == Str(e.Error())
    ensures e.GetErrorsForLog()["status_code"] == Int(e.GetStatusCode())
    ensures e.GetErrorsForLog()["stack_trace"] == Str(e.GetStackTrace())
    ensures e.GetErrorsForLog()["errors"].fields == Contents(e.GetErrors())
    ensures |e.GetErrorsForLog()| == 4
  {
  }

  /** Storing a map under "details" makes it the details, and a string under
      its "error" key the details message. */
  lemma DetailsRoundTrip(bag: Bag, d: Bag, s: string)
    ensures Details(bag["details" := Obj(d)]) == d
    ensures DetailsMessage(bag["details" := Obj(d["error" := Str(s)])]) == s
  {
  }

  /** A non-empty details message can only come from a string under "error"
      inside a map under "details". */
  lemma DetailsMessageCharacterized(bag: Bag, s: string)
    requires s != ""
    ensures DetailsMessage(bag) == s <==>
      "details" in bag && bag["details"].Obj? && "error" in bag["details"].fields
      && bag["details"].fields["error"] == Str(s)
  {
  }

  /** An exception made from an empty bag: the message is the description
      of the code, the response carries just the three base fields, and
      there are no details. */
  lemma EmptyBagViews(code: StatusCode, stackTrace: string)
    ensures ResolvedMessage(map[], code) == GetDescription(code)
    ensures RemainingErrors(map[]) == map[]
    ensures ApiView(code, GetDescription(code), map[])
      == map["status" := Str(ErrorStatus), "error_code" := Int(code), "message" := Str(GetDescription(code))]
    ensures |ApiView(code, GetDescription(code), map[])| == 3
    ensures Details(map[]) == map[] && DetailsMessage(map[]) == ""
  {
    ApiViewSize(code, GetDescription(code), map[]);
  }

  /** A worked case of a collision: the caller's message is consumed, the
      other entries are kept, and a caller's "status" replaces "error". */
  lemma StatusCollisionExample()
    ensures var bag := map["message" := Str("X"), "message_extra" := Str("Y"),
                           "status" := Str("pending")];
      var v := ApiView(BadRequest, ResolvedMessage(bag, BadRequest), RemainingErrors(bag));
      v.Keys == {"status", "error_code", "message", "message_extra"}
      && v["status"] == Str("pending") && v["error_code"] == Int(400)
      && v["message"] == Str("X") && v["message_extra"] == Str("Y")
  {
    var bag := map["message" := Str("X"), "message_extra" := Str("Y"),
                   "status" := Str("pending")];
    assert HasExplicitMessage(bag);
    assert RemainingErrors(bag) == map["message_extra" := Str("Y"), "status" := Str("pending")];
  }

  /** The bag every accessor is read through in the package's own tests: an
      explicit message, nested "errors" and "details", and one more entry. */
  lemma AccessorsExample()
    ensures var bag := map["message" := Str("Validation failed."),
                           "errors" := Obj(map["email" := Str("invalid_email")]),
                           "details" := Obj(map["error" := Str("email_format_error"), "code" := Int(123)]),
                           "extra_data" := Str("some_value")];
      var rest := RemainingErrors(bag);
      ResolvedMessage(bag, BadRequest) == "Validation failed."
      && rest == bag - {"message"}
      && Details(rest) == map["error" := Str("email_format_error"), "code" := Int(123)]
      && DetailsMessage(rest) == "email_format_error"
      && ApiView(BadRequest, "Validation failed.", rest)
         == rest["status" := Str("error")]["error_code" := Int(400)]["message" := Str("Validation failed.")]
  {
    var bag := map["message" := Str("Validation failed."),
                   "errors" := Obj(map["email" := Str("invalid_email")]),
                   "details" := Obj(map["error" := Str("email_format_error"), "code" := Int(123)]),
                   "extra_data" := Str("some_value")];
    assert HasExplicitMessage(bag);
    var rest := RemainingErrors(bag);
    assert "details" in rest && rest["details"] == bag["details"];
  }
}
