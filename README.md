# golang-core status codes and CoreException, in Dafny

This project models the core of the `golang-core` Go library: the HTTP
status-code registry of package `enum` and the `CoreException` error
record of package `exception`.

- `map_object.dfy` (module `MapObjects`): a Go map as a reference to a
  mutable map. A nil map is a null `MapObject?`. `Put` is `m[k] = v` and
  `Delete` is `delete(m, k)`. `Contents` reads a nil map as empty, as Go
  does.
- `status.dfy` (module `Status`): the 62 named `StatusCode` constants and
  the `statusDescriptions` registry, written as a lookup by status class
  (section 15 of RFC 9110) collected into a map. Also `GetValue`,
  `GetDescription`, `NewStatusCode` and `GetStatusTexts`, whose copy loop
  is a method with invariants. The lemmas fix the registry's exact key
  set, its size (62) and every named constant's phrase.
- `exception.dfy` (module `Exception`): the detail bag is a
  `MapObject?<string, Value>`, shared with the caller as in Go. `Value`
  stands for the `interface{}` values the package inspects. The pieces are:
  - `NewInstance`, a method that may delete the caller's "message" entry.
  - `CoreException`, a class with the four fields and the accessor
    functions.
  - `Format`, a method whose merge loop is proved equal to the API view.
  - Value-level specifications: `ResolvedMessage`, `RemainingErrors`,
    `Details`, `DetailsMessage`, `LogView` and `ApiView`.

  The lemmas pin down how these shapes relate, including the key
  collisions of `Format`.

The code and its doc comment disagree in one place, and the model follows
the code. The doc comment of `NewInstance` says any string under
"message" becomes the message. The code (exception/exception.go:85) only
takes a non-empty one. When it does not take the entry, it does not delete
it either. An empty string, or a non-string, stays in the bag and then
overrides the "message" field of `Format`'s output
(`Exception.FormattedMessage`).

## Model

| member | source | states |
|---|---|---|
| MapObjects.MapObject.constructor | enum/status_code.go:198 | a new map holds exactly the given entries |
| MapObjects.MapObject.Put | enum/status_code.go:200 | after `m[k] = v` the map is the old one with `k` bound to `v` |
| MapObjects.MapObject.Delete | exception/exception.go:92 | after `delete(m, k)` the map is the old one without `k` |
| Status.GetDescription | enum/status_code.go:166-171 | a registered code yields its registry phrase; the result is "Unknown Status Code" exactly when the code is unregistered; the result is never empty |
| Status.NewStatusCode | enum/status_code.go:184-191 | the flag is true exactly when the value is registered, and then the code's value is the input; otherwise the code is 0, which is itself unregistered |
| Status.ValueRoundTrip | enum/status_code.go:160-191 | `NewStatusCode(GetValue(c))` gives back `(c, true)` for every registered code; an accepted value comes back unchanged; NewStatusCode accepts a value exactly when GetDescription does not give the sentinel |
| Status.GetStatusTexts | enum/status_code.go:196-203 | the result is a freshly allocated map whose contents equal the registry |
| Status.CopiesAreIndependent | tests/enum/status_code_test.go:89-102 | writing "Not OK" under 200 in one copy leaves a later copy with "OK"; the two copies are distinct objects, which follows from `GetStatusTexts` returning a freshly allocated map |
| Status.DescriptionsAreKnown | enum/status_code.go:94-157 | every registered phrase is non-empty and differs from "Unknown Status Code" |
| Status.InformationalPhrasesKnown | enum/status_code.go:95-98 | every 1xx phrase is non-empty and not the sentinel |
| Status.SuccessfulPhrasesKnown | enum/status_code.go:99-108 | every 2xx phrase is non-empty and not the sentinel |
| Status.RedirectionPhrasesKnown | enum/status_code.go:109-116 | every 3xx phrase is non-empty and not the sentinel |
| Status.ClientErrorPhrasesKnown | enum/status_code.go:117-145 | every 4xx phrase is non-empty and not the sentinel |
| Status.ServerErrorPhrasesKnown | enum/status_code.go:146-156 | every 5xx phrase is non-empty and not the sentinel |
| Status.InformationalCodes | enum/status_code.go:95-98 | a code has a 1xx phrase exactly when it is 100 to 103 |
| Status.SuccessfulCodes | enum/status_code.go:99-108 | a code has a 2xx phrase exactly when it is 200 to 208 or 226 |
| Status.RedirectionCodes | enum/status_code.go:109-116 | a code has a 3xx phrase exactly when it is 300 to 305, 307 or 308 (306 is unused) |
| Status.ClientErrorCodes | enum/status_code.go:117-145 | a code has a 4xx phrase exactly when it is 400 to 418, 421 to 426, 428, 429, 431 or 451 |
| Status.ServerErrorCodes | enum/status_code.go:146-156 | a code has a 5xx phrase exactly when it is 500 to 508, 510 or 511 |
| Status.InformationalCount | enum/status_code.go:95-98 | the registry holds 4 codes in 100..199 |
| Status.SuccessfulCount | enum/status_code.go:99-108 | the registry holds 10 codes in 200..299 |
| Status.RedirectionCount | enum/status_code.go:109-116 | the registry holds 8 codes in 300..399 |
| Status.ClientErrorCount | enum/status_code.go:117-145 | the registry holds 29 codes in 400..499 |
| Status.ServerErrorCount | enum/status_code.go:146-156 | the registry holds 11 codes in 500..599 |
| Status.RegistrySize | tests/enum/status_code_test.go:81-87 | the registry, and so every copy GetStatusTexts returns, has exactly 62 entries |
| Status.RegisteredCodesInClasses | enum/status_code.go:94-157 | every registered code lies in 100..599, so the failure code 0 is unregistered |
| Status.InformationalCodesRegistered | enum/status_code.go:12-17 | each named 1xx constant is registered under its own phrase |
| Status.SuccessfulCodesRegistered | enum/status_code.go:20-31 | each named 2xx constant is registered under its own phrase |
| Status.RedirectionCodesRegistered | enum/status_code.go:34-43 | each named 3xx constant is registered under its own phrase |
| Status.ClientErrorCodesRegistered | enum/status_code.go:46-76 | each named 4xx constant is registered under its own phrase |
| Status.ServerErrorCodesRegistered | enum/status_code.go:79-91 | each named 5xx constant is registered under its own phrase |
| Exception.StringAt | exception/exception.go:84 | the comma-ok assertion succeeds exactly when the key holds a string, and then yields that string; otherwise it yields "" |
| Exception.ResolvedMessage | exception/exception.go:84-89 | the message is never empty; it is the bag's own non-empty string message when there is one, else the description of the default code |
| Exception.RemainingErrors | exception/exception.go:85-93 | a consumed message key is removed; otherwise the bag is unchanged; no entry is added or altered |
| Exception.Details | exception/exception.go:125-130 | the nested map under "details" when there is one, else the empty map |
| Exception.LogView | exception/exception.go:148-155 | exactly the four keys message, status_code, errors and stack_trace, with the bag nested whole under "errors" |
| Exception.ApiView | exception/exception.go:170-186 | the keys are the three base keys plus the bag's keys; every bag entry appears unchanged; a base field the bag does not name keeps its base value |
| Exception.CoreException.constructor | exception/exception.go:96-101 | the four fields hold the given message, code, bag and trace |
| Exception.CoreException.Format | exception/exception.go:170-186 | the merge loop builds exactly the API view of the exception's message, code and current bag |
| Exception.NewInstance | exception/exception.go:83-102 | a new exception whose message is the resolved message of the bag as passed; it keeps the code, the same bag reference and the trace; the caller's bag afterwards is the remaining bag |
| Exception.FormattedMessage | exception/exception.go:84-93 | after construction, Format's "message" is the caller's own "message" entry whenever there was one (of any type), else the code's description; it equals the exception's message exactly when the caller gave none or gave a non-empty string |
| Exception.DetailsOverrideBaseFields | exception/exception.go:179-183 | a "status", "error_code" or "message" detail replaces the base field, so the response shows the base value only when the detail happens to equal it |
| Exception.ApiViewSize | exception/exception.go:170-186 | the API view has 3 entries plus one for each detail key that is not a base key |
| Exception.GetDetailsAccessor | exception/exception.go:122-130 | an exception's details are the map under "details" of its shared bag when that entry is a map, and the empty map otherwise, including when the bag is nil |
| Exception.GetDetailsMessageAccessor | exception/exception.go:132-143 | an exception's details message is the string under "error" of its details when there is one, and "" otherwise, including when the bag is nil |
| Exception.LogViewKeepsReservedFields | exception/exception.go:148-155 | whatever the bag holds, the log view carries the exception's own message, code and trace, keeps the bag whole and has 4 entries |
| Exception.DetailsRoundTrip | exception/exception.go:125-143 | a map stored under "details" is read back by Details, and a string under its "error" key by DetailsMessage |
| Exception.DetailsMessageCharacterized | exception/exception.go:137-143 | a non-empty details message is s exactly when "details" holds a map whose "error" entry is the string s |
| Exception.EmptyBagViews | exception/exception.go:85-89 | an empty bag gives the code's description as the message, no details, an empty details message and an API view of the three base fields only |
| Exception.StatusCollisionExample | exception/exception.go:170-186 | with the bag {message: "X", message_extra: "Y", status: "pending"} and code 400, the API view is {status: "pending", error_code: 400, message: "X", message_extra: "Y"} |
| Exception.AccessorsExample | tests/exception/exception_test.go:52-131 | for the bag of the package's interface test: the message is "Validation failed.", "message" is removed, the details and details message are as the test expects, and Format adds exactly the three base fields |

## Left out

- The stack trace from `debug.Stack()` (exception/exception.go:100) is a parameter of `NewInstance`, because the runtime call stack is outside the model.
- `Exception.Value` keeps strings, ints and nested maps. Every other dynamic type (bool, float, slice, nil interface) is the payload-less `Other`, because the package only copies such values.
- `Exception.CoreException.GetErrorsForLog`: a nil `Errors` map shows as an empty nested map under "errors". In Go it is a nil map, which prints and compares differently.
- Nested maps inside the bag are values, so aliasing between a nested map and another reference to it is not modelled. Only the top-level bag is shared.
- Go's map iteration order is unspecified. `Format` and `GetStatusTexts` pick keys in an arbitrary order, and their results do not depend on it.
- The constructors for specific errors (bad request, unprocessable content, internal server error and the rest) are not part of this model. Each only calls `NewInstance` with a fixed status code.
- The rest of `enum/status.go` is not part of this model, apart from the constant `ERROR = "error"` (enum/status.go:8), which is `Status.ErrorStatus`.
- `Exception.CoreException` treats the record as fixed after construction: its four fields are `const`, whereas the Go struct's exported fields (exception/exception.go:59-64) are assignable by any caller. Nothing in the package reassigns them, but the model does not cover code outside it that does.
- Concurrency: a map shared between goroutines is not modelled.
