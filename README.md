# molina response envelopes, in Dafny

molina is a Spring library that wraps every controller result, and every
exception a controller throws, in one `ApiResponse` envelope: a timestamp,
an HTTP status, a result flag, the data, a map of errors and a message. This
project models the decision logic of that library and proves what it
promises:

- **`@ResponseHandler` resolution.** A method's annotation beats its class's.
  Without either, the handlers fall back to status 200 and result true.
- **The WebFlux result handlers.** Two of them exist, in the `com` and `org`
  packages. A null result, a plain value, a `Mono` and a `Flux` are each
  turned into a success envelope, or into an error envelope when the
  publisher fails. A `Flux` is collected all-or-nothing.
- **Exception classification.** Five variants turn an exception into a
  status, a message and an errors map: the `com` result handler, the
  WebFlux exception advice, the servlet generic advice, the servlet
  constraint-violation advice, and the `org` result handler. Each is modelled
  exactly as written, with its own default texts, its own first-wins or
  last-wins rule for duplicate keys, and its property-path trimming. The
  WebFlux advice's `lastSegment` has the same body as the `com` result
  handler's, so both use `ComResultHandler.LastSegment`; the
  constraint-violation advice's `leafName` is a different function.
- **The Spring MVC body advice.** ProblemDetail and ResponseEntity bodies pass
  through. An existing envelope is not wrapped again. A status that is no
  longer 200 on a servlet response is not overwritten. A JSON content type is
  set only when none is present. The inactive-validation warning fires at
  most once.
- **The two envelope classes**, with their constructors and setters.

Modules, one per Java file of the core plus support modules:

- `ComApi`, `OrgApi`: the envelopes (`ApiResponse` classes, with a value
  snapshot `View()`).
- `ComResultHandler`, `MvcAdvice`, `OrgResultHandler`: the three handlers.
- `ReactiveExceptionAdvice`, `GenericExceptionAdvice`,
  `ConstraintViolationAdvice`: the three exception advices.
- `Annotations`: `@ResponseHandler` and its lookup.
- `Exceptions`: a closed datatype of the exceptions the code tests with
  `instanceof`. Spring's hierarchy is kept by predicates: a
  ServerWebInputException is a ResponseStatusException with status 400, a
  WebExchangeBindException is a ServerWebInputException, and every
  ResponseStatusException is an ErrorResponseException.
- `Reactor`: `Mono` as `Empty | Just | Error` and `Flux` as finite items
  plus a terminal signal, with `map`, `onErrorResume(Mono.just(..))` and
  `collectList`.
- `LinkedMaps`: `HashMap`/`LinkedHashMap` as an insertion-ordered list of
  pairs, with `put`, `putIfAbsent` and the first-wins merge of
  `Collectors.toMap(.., (a, b) -> a, ..)`.
- `JavaStrings`: `isBlank`, `lastIndexOf`, and the regular expression
  `\[.*?]` of `replaceAll` written out as a function.
- `Http`, `Payloads`, `Wrappers`: response objects, opaque payloads, `Option`.

Java's `null` is `None` throughout. Error maps are
`LinkedMap<Option<string>, Option<string>>`, because the code can put a
null key (`handleInput` with a parameter whose name is unknown) and null
values (`handleBind` with a field error that has no default message).
`Instant.now()` is a parameter `now`.

### Behaviour worth knowing

- The `com` result handler writes no envelope at all for an empty `Mono`:
  `map` and `flatMap` never run, so the response status is not set either
  (`ComResultHandler.MonoBodies`).
- Duplicate keys are not treated alike. The `com` result handler and the
  WebFlux advice's `handleCve` use `put`, so the last violation for a key
  wins. The generic advice's `handleValidation` and the
  constraint-violation advice collect with `(a, b) -> a`, so the first entry
  wins.
- Only the MVC advice avoids wrapping an existing envelope. The WebFlux
  result handlers wrap whatever value they receive, an `ApiResponse`
  included.
- `leafName` does not strip `[...]` groups, and it keeps a path that ends in
  '.' whole. `lastSegment` strips them (`ConstraintViolationAdvice.LeafNameKeepsIndex`).
- ProblemDetail and ResponseEntity bodies pass through the MVC advice with
  the response untouched; in particular no content type is set on them.
- Only the `org` handler's error envelope and the generic advice carry the
  exception's own message. The `com` handler and the WebFlux advice use
  fixed texts ("Validation error", "Request failed", "Unexpected error").

## Model

| member | source | states |
|---|---|---|
| `Annotations.ConfigPrecedence` | src/main/java/com/logicsoft/molina/core/ApiResponseResultHandler.java:67-71 | the method annotation wins over the class one; with neither, the pair is (200, true); an annotation is found iff one is present |
| `Annotations.DefaultsMatchAbsence` | src/main/java/com/logicsoft/molina/annotations/ResponseHandler.java:9-10 | an annotation left at its element defaults resolves like no annotation |
| `ComApi.ApiResponse.constructor` | src/main/java/com/logicsoft/molina/api/ApiResponse.java:14-21 | no-args construction: status 0, result false, every reference field null |
| `ComApi.ApiResponse.AllArgs` | src/main/java/com/logicsoft/molina/api/ApiResponse.java:13-21 | the all-args constructor stores each argument in its field, in declaration order |
| `ComApi.ApiResponse.SetTimestamp` | src/main/java/com/logicsoft/molina/api/ApiResponse.java:16 | the setter changes the timestamp and nothing else |
| `ComApi.ApiResponse.SetStatus` | src/main/java/com/logicsoft/molina/api/ApiResponse.java:17 | the setter changes the status and nothing else |
| `ComApi.ApiResponse.SetResult` | src/main/java/com/logicsoft/molina/api/ApiResponse.java:18 | the setter changes the result flag and nothing else |
| `ComApi.ApiResponse.SetData` | src/main/java/com/logicsoft/molina/api/ApiResponse.java:19 | the setter changes the data and nothing else |
| `ComApi.ApiResponse.SetErrors` | src/main/java/com/logicsoft/molina/api/ApiResponse.java:20 | the setter changes the errors map and nothing else |
| `ComApi.ApiResponse.SetMessage` | src/main/java/com/logicsoft/molina/api/ApiResponse.java:21 | the setter changes the message and nothing else |
| `OrgApi.OkView` | src/main/java/org/logicsoft/molina/api/ApiResponse.java:26-28 | `ok(data)` is status 200, result true, the given data and no message |
| `OrgApi.ErrorView` | src/main/java/org/logicsoft/molina/api/ApiResponse.java:30-32 | `error(status, message)` keeps the status and message, with result false and no data |
| `OrgApi.OkAndErrorDisjoint` | src/main/java/org/logicsoft/molina/api/ApiResponse.java:26-32 | an `ok` envelope and an `error` envelope never coincide; the result flag tells them apart |
| `OrgApi.ApiResponse.constructor` | src/main/java/org/logicsoft/molina/api/ApiResponse.java:15-16 | no-args construction leaves Java's field defaults |
| `OrgApi.ApiResponse.AllArgs` | src/main/java/org/logicsoft/molina/api/ApiResponse.java:18-24 | each argument lands in its same-named field; there is no errors field |
| `OrgApi.ApiResponse.Ok` | src/main/java/org/logicsoft/molina/api/ApiResponse.java:26-28 | the factory returns a new object holding the `ok` envelope |
| `OrgApi.ApiResponse.Error` | src/main/java/org/logicsoft/molina/api/ApiResponse.java:30-32 | the factory returns a new object holding the `error` envelope |
| `OrgApi.ApiResponse.SetTimestamp` | src/main/java/org/logicsoft/molina/api/ApiResponse.java:38-40 | the setter changes the timestamp and nothing else |
| `OrgApi.ApiResponse.SetStatus` | src/main/java/org/logicsoft/molina/api/ApiResponse.java:46-48 | the setter changes the status and nothing else |
| `OrgApi.ApiResponse.SetResult` | src/main/java/org/logicsoft/molina/api/ApiResponse.java:54-56 | the setter changes the result flag and nothing else |
| `OrgApi.ApiResponse.SetData` | src/main/java/org/logicsoft/molina/api/ApiResponse.java:62-64 | the setter changes the data and nothing else |
| `OrgApi.ApiResponse.SetMessage` | src/main/java/org/logicsoft/molina/api/ApiResponse.java:70-72 | the setter changes the message and nothing else |
| `JavaStrings.LastIndexOf` | src/main/java/com/logicsoft/molina/core/ApiResponseResultHandler.java:175 | the index holds the character and none follows it; -1 exactly when the character is absent |
| `JavaStrings.FindClose` | src/main/java/com/logicsoft/molina/core/ApiResponseResultHandler.java:177 | the lazy `.*?]` match: the first ']' with no line terminator before it, or none |
| `JavaStrings.StripIsGroupFree` | src/main/java/com/logicsoft/molina/core/ApiResponseResultHandler.java:177 | after `replaceAll` no '[' is followed by a matching group |
| `JavaStrings.StripOfGroupFree` | src/main/java/com/logicsoft/molina/core/ApiResponseResultHandler.java:177 | `replaceAll` leaves a string without a matching group unchanged |
| `JavaStrings.StripIdempotent` | src/main/java/com/logicsoft/molina/core/ApiResponseResultHandler.java:177 | stripping twice is stripping once |
| `JavaStrings.StripDeletesOnly` | src/main/java/com/logicsoft/molina/core/ApiResponseResultHandler.java:177 | stripping only deletes characters |
| `JavaStrings.NoOpenIsGroupFree` | src/main/java/com/logicsoft/molina/core/ApiResponseResultHandler.java:177 | a string without '[' is unchanged by stripping |
| `LinkedMaps.PutLookup` | src/main/java/com/logicsoft/molina/exception/ApiResponseReactiveExceptionAdvice.java:40 | after `put(k, v)`, `get(k)` is `v` and every other key reads as before |
| `LinkedMaps.PutKeys` | src/main/java/com/logicsoft/molina/exception/ApiResponseReactiveExceptionAdvice.java:27-28 | a re-put key keeps its position in a LinkedHashMap; a new key goes last |
| `LinkedMaps.MergeFirstLookup` | src/main/java/com/logicsoft/molina/exception/ApiResponseConstraintViolationAdvice.java:28 | the merge function `(a, b) -> a` leaves a present key alone and appends a new one |
| `LinkedMaps.PutKeepsUnique` | src/main/java/com/logicsoft/molina/exception/ApiResponseReactiveExceptionAdvice.java:28 | one `put` into a map with unique keys leaves each key once |
| `LinkedMaps.MergeFirstKeepsUnique` | src/main/java/com/logicsoft/molina/exception/ApiResponseConstraintViolationAdvice.java:28 | one first-wins `merge` into a map with unique keys leaves each key once |
| `LinkedMaps.FoldsKeysUnique` | src/main/java/com/logicsoft/molina/exception/ApiResponseConstraintViolationAdvice.java:24-30 | maps built by successive puts or merges hold each key once |
| `LinkedMaps.FoldsKeySet` | src/main/java/com/logicsoft/molina/core/ApiResponseResultHandler.java:163-167 | a key is in the built map iff some entry carries it |
| `LinkedMaps.FoldsSameKeys` | src/main/java/com/logicsoft/molina/exception/ApiResponseGenericExceptionAdvice.java:26-32 | overwriting and first-wins building list the same keys in the same order |
| `LinkedMaps.PutAllLastWins` | src/main/java/com/logicsoft/molina/exception/ApiResponseReactiveExceptionAdvice.java:28 | with successive puts the last entry for a key decides its value |
| `LinkedMaps.MergeFirstAllFirstWins` | src/main/java/com/logicsoft/molina/exception/ApiResponseGenericExceptionAdvice.java:30 | with first-wins merges the first entry for a key decides its value |
| `ComResultHandler.SupportsOnlyByAnnotation` | src/main/java/com/logicsoft/molina/core/ApiResponseResultHandler.java:47-62 | `supports` holds iff the method or its class is annotated, whatever the return type; a nested publisher is logged and still accepted |
| `ComResultHandler.OkEnvelope` | src/main/java/com/logicsoft/molina/core/ApiResponseResultHandler.java:124-131 | a new envelope with the resolved status and flag, the body as data, and no errors or message |
| `ComResultHandler.LastSegmentShape` | src/main/java/com/logicsoft/molina/core/ApiResponseResultHandler.java:173-178 | a last segment holds no '.' and no bracket group, and a plain name is its own last segment |
| `ComResultHandler.LastSegmentDeletesOnly` | src/main/java/com/logicsoft/molina/core/ApiResponseResultHandler.java:173-178 | a last segment only uses characters of the path |
| `ComResultHandler.AfterLastDot` | src/main/java/com/logicsoft/molina/core/ApiResponseResultHandler.java:175-176 | the text kept before stripping is dot-free, comes from the path, and is the whole path when it has no '.' |
| `ComResultHandler.StripIndexedName` | src/main/java/com/logicsoft/molina/core/ApiResponseResultHandler.java:177 | a plain name followed by one `[...]` group strips back to the name |
| `ComResultHandler.LastSegmentOfIndexed` | src/main/java/com/logicsoft/molina/core/ApiResponseResultHandler.java:173-178 | `name[idx]` gives `name`, with or without a dotted prefix |
| `ComResultHandler.LastSegmentOfSplit` | src/main/java/com/logicsoft/molina/core/ApiResponseResultHandler.java:173-178 | the result is the text after the last '.' with its bracket groups stripped; a path without '.' is stripped whole |
| `ComResultHandler.LastSegmentOfIndexedPath` | src/main/java/com/logicsoft/molina/core/ApiResponseResultHandler.java:175-177 | "order.items[2].qty" gives "qty" |
| `ComResultHandler.LastSegmentOfIndexedName` | src/main/java/com/logicsoft/molina/core/ApiResponseResultHandler.java:176-177 | "items[2]" gives "items" |
| `ComResultHandler.ViolationErrors` | src/main/java/com/logicsoft/molina/core/ApiResponseResultHandler.java:162-168 | the loop over the violations builds the overwriting map of (key, message or "invalid") |
| `ComResultHandler.ErrorsFromException` | src/main/java/com/logicsoft/molina/core/ApiResponseResultHandler.java:155-171 | `{_reason}` for a ResponseStatusException only with a reason; the violation map for a ConstraintViolationException; null otherwise |
| `ComResultHandler.ErrorView` | src/main/java/com/logicsoft/molina/core/ApiResponseResultHandler.java:133-146 | an error envelope has result false, no data and a message; its map, when attached, is non-empty |
| `ComResultHandler.ErrorEnvelope` | src/main/java/com/logicsoft/molina/core/ApiResponseResultHandler.java:133-146 | the method fills a new object with exactly that envelope |
| `ComResultHandler.ErrorClassification` | src/main/java/com/logicsoft/molina/core/ApiResponseResultHandler.java:149-153 | "Validation error" iff the status is 400; a ResponseStatusException keeps its code and gets `_reason` iff it has a reason; constraint violations give 400; anything else gives 500, "Unexpected error" and no map |
| `ComResultHandler.ViolationErrorsLastWins` | src/main/java/com/logicsoft/molina/core/ApiResponseResultHandler.java:163-167 | a later violation on the same key overwrites an earlier one |
| `ComResultHandler.ViolationKeyWellFormed` | src/main/java/com/logicsoft/molina/core/ApiResponseResultHandler.java:164-165 | a violation's key is non-null, non-blank, dot-free and has no bracket group |
| `ComResultHandler.ViolationKeysWellFormed` | src/main/java/com/logicsoft/molina/core/ApiResponseResultHandler.java:162-168 | the map's keys are exactly the violations' keys, all well formed |
| `ComResultHandler.ResultEnvelope` | src/main/java/com/logicsoft/molina/core/ApiResponseResultHandler.java:72-96 | an envelope is produced for every return value except an empty Mono |
| `ComResultHandler.HandleResult` | src/main/java/com/logicsoft/molina/core/ApiResponseResultHandler.java:66-100 | a known status is written to the response together with the envelope; an unknown one throws, so nothing is written and the status is untouched; an empty Mono writes nothing |
| `ComResultHandler.ImmediateBodies` | src/main/java/com/logicsoft/molina/core/ApiResponseResultHandler.java:73-77 | a null body gives null data and a plain body becomes the data, with the resolved status and flag and no errors or message |
| `ComResultHandler.MonoBodies` | src/main/java/com/logicsoft/molina/core/ApiResponseResultHandler.java:78-85 | a Mono's value becomes the data of a success, its error becomes exactly the error envelope, and an empty Mono gives no envelope |
| `ComResultHandler.FluxAllOrNothing` | src/main/java/com/logicsoft/molina/core/ApiResponseResultHandler.java:87-95 | a completed Flux gives one envelope with all items in order; a failed one gives the error envelope and no items |
| `ComResultHandler.ErrorFieldsOnlyOnFailure` | src/main/java/com/logicsoft/molina/core/ApiResponseResultHandler.java:124-146 | only failures carry errors or a message, and they carry no data; successes carry the resolved status and flag |
| `MvcAdvice.SupportsIffAnnotated` | src/main/java/com/logicsoft/molina/core/ApiResponseMvcAdvice.java:67-71 | the advice applies iff the method or its class is annotated, and reads the method's annotation first |
| `MvcAdvice.NormalizeStatus` | src/main/java/com/logicsoft/molina/core/ApiResponseMvcAdvice.java:119-121 | the result is positive, and a positive status is kept |
| `MvcAdvice.NormalizeStatusFacts` | src/main/java/com/logicsoft/molina/core/ApiResponseMvcAdvice.java:91-96 | an unset (0) status is sent as 200; normalising is idempotent |
| `MvcAdvice.NonClobber` | src/main/java/com/logicsoft/molina/core/ApiResponseMvcAdvice.java:123-132 | a servlet status other than 200 survives; otherwise a valid status is written; only an invalid code throws |
| `MvcAdvice.SetStatusIfNotExplicit` | src/main/java/com/logicsoft/molina/core/ApiResponseMvcAdvice.java:123-132 | the response status after the call follows the non-clobber rule, and a throw changes nothing |
| `MvcAdvice.SetJsonContentTypeIfAbsent` | src/main/java/com/logicsoft/molina/core/ApiResponseMvcAdvice.java:134-139 | an existing content type is kept; a missing one becomes application/json |
| `MvcAdvice.Advice.constructor` | src/main/java/com/logicsoft/molina/core/ApiResponseMvcAdvice.java:61-64 | validation is active iff both a Validator and a MethodValidationPostProcessor exist; no warning yet |
| `MvcAdvice.Advice.WarnIfInactive` | src/main/java/com/logicsoft/molina/core/ApiResponseMvcAdvice.java:82-86 | the warning fires only when validation is inactive and warnings are wanted, and at most once per advice |
| `MvcAdvice.Advice.BeforeBodyWrite` | src/main/java/com/logicsoft/molina/core/ApiResponseMvcAdvice.java:73-110 | ProblemDetail/ResponseEntity returned as is with the response untouched; an envelope not re-wrapped and its normalised status applied; any other body wrapped with the resolved status and flag; JSON text for a String converter |
| `MvcAdvice.WarnsAtMostOnce` | src/main/java/com/logicsoft/molina/core/ApiResponseMvcAdvice.java:47 | any two writes through one advice, whatever their bodies, annotations and converters, never warn twice |
| `OrgResultHandler.SupportsIffAnnotated` | src/main/java/org/logicsoft/molina/core/ApiResponseResultHandler.java:37-45 | `supports` holds iff the method or its containing class is annotated; the method's annotation applies first |
| `OrgResultHandler.ErrorEnvelope` | src/main/java/org/logicsoft/molina/core/ApiResponseResultHandler.java:125-133 | every error envelope is 500, result false, no data, and the exception's own message |
| `OrgResultHandler.HandleResult` | src/main/java/org/logicsoft/molina/core/ApiResponseResultHandler.java:47-81 | Mono and Flux results are handed on as a Mono, which never ends in an error; the rest are wrapped at once |
| `OrgResultHandler.ImmediateBodies` | src/main/java/org/logicsoft/molina/core/ApiResponseResultHandler.java:59-62 | a null body gives null data; a plain body becomes the data, with the resolved status and flag |
| `OrgResultHandler.MonoBodies` | src/main/java/org/logicsoft/molina/core/ApiResponseResultHandler.java:64-69 | a Mono's value is wrapped as a success, its error becomes the 500 envelope, and an empty Mono stays empty |
| `OrgResultHandler.FluxAllOrNothing` | src/main/java/org/logicsoft/molina/core/ApiResponseResultHandler.java:71-77 | a Flux gives exactly one envelope: all items in order, or the 500 envelope with no data |
| `ReactiveExceptionAdvice.HandlerFor` | src/main/java/com/logicsoft/molina/exception/ApiResponseReactiveExceptionAdvice.java:25-75 | the handler chosen accepts the exception, and no accepting handler declares a closer type |
| `ReactiveExceptionAdvice.Error` | src/main/java/com/logicsoft/molina/exception/ApiResponseReactiveExceptionAdvice.java:90-99 | a new envelope: the given status, message and map (even empty), result false, no data |
| `ReactiveExceptionAdvice.Error400` | src/main/java/com/logicsoft/molina/exception/ApiResponseReactiveExceptionAdvice.java:86-88 | the same envelope with status 400 |
| `ReactiveExceptionAdvice.BindErrors` | src/main/java/com/logicsoft/molina/exception/ApiResponseReactiveExceptionAdvice.java:27-29 | the two loops build the map of field puts followed by the `_global` putIfAbsents |
| `ReactiveExceptionAdvice.GlobalFillOthers` | src/main/java/com/logicsoft/molina/exception/ApiResponseReactiveExceptionAdvice.java:29 | global errors touch no key but `_global` |
| `ReactiveExceptionAdvice.GlobalKeepsMessage` | src/main/java/com/logicsoft/molina/exception/ApiResponseReactiveExceptionAdvice.java:29 | a non-null `_global` value, even one from a field error, is never replaced |
| `ReactiveExceptionAdvice.GlobalAllNull` | src/main/java/com/logicsoft/molina/exception/ApiResponseReactiveExceptionAdvice.java:29 | global errors without a message leave `_global` mapped to null |
| `ReactiveExceptionAdvice.GlobalFirstWins` | src/main/java/com/logicsoft/molina/exception/ApiResponseReactiveExceptionAdvice.java:29 | otherwise the first global error with a message is the one kept |
| `ReactiveExceptionAdvice.BindFieldLastWins` | src/main/java/com/logicsoft/molina/exception/ApiResponseReactiveExceptionAdvice.java:28 | a field keeps the message of its last field error |
| `ReactiveExceptionAdvice.HandleBindException` | src/main/java/com/logicsoft/molina/exception/ApiResponseReactiveExceptionAdvice.java:25-33 | 400, "WebExchangeBindException error", and the bind map |
| `ReactiveExceptionAdvice.HandleInputException` | src/main/java/com/logicsoft/molina/exception/ApiResponseReactiveExceptionAdvice.java:35-44 | 400 and exactly one entry: the parameter's name (or `_request`) mapped to the reason or "Invalid request parameter" |
| `ReactiveExceptionAdvice.HandleCveException` | src/main/java/com/logicsoft/molina/exception/ApiResponseReactiveExceptionAdvice.java:46-57 | 400, "Validation error", and the last-wins violation map keyed by `lastSegment` |
| `ReactiveExceptionAdvice.HandleRseException` | src/main/java/com/logicsoft/molina/exception/ApiResponseReactiveExceptionAdvice.java:59-66 | the exception's own status for both the response and the envelope, "Request failed", and `{_reason}` iff there is a reason |
| `ReactiveExceptionAdvice.HandleAnyException` | src/main/java/com/logicsoft/molina/exception/ApiResponseReactiveExceptionAdvice.java:68-75 | 500, "Unexpected error", and `{_error}` iff there is a message |
| `ReactiveExceptionAdvice.Handle` | src/main/java/com/logicsoft/molina/exception/ApiResponseReactiveExceptionAdvice.java:21-75 | whatever the exception, the response status equals the envelope status, with result false, no data, and a map always attached |
| `ReactiveExceptionAdvice.SingleEntryMaps` | src/main/java/com/logicsoft/molina/exception/ApiResponseReactiveExceptionAdvice.java:59-75 | the `_reason` and `_error` maps hold at most one entry, present iff the reason or message is non-null |
| `GenericExceptionAdvice.FieldErrorMapFirstWins` | src/main/java/com/logicsoft/molina/exception/ApiResponseGenericExceptionAdvice.java:26-32 | a field maps to the message of its first field error, or "Invalid" |
| `GenericExceptionAdvice.FieldErrorMapKeys` | src/main/java/com/logicsoft/molina/exception/ApiResponseGenericExceptionAdvice.java:26-32 | every field with an error is a key, no other key is, and each key appears once |
| `GenericExceptionAdvice.ResolveStatusByFamily` | src/main/java/com/logicsoft/molina/exception/ApiResponseGenericExceptionAdvice.java:61-65 | an ErrorResponseException gives its own code, an IllegalArgumentException 400, and every other exception 500; through the hierarchy any ServerWebInputException gives 400 |
| `GenericExceptionAdvice.ResolveMessage` | src/main/java/com/logicsoft/molina/exception/ApiResponseGenericExceptionAdvice.java:67-70 | the message, unless it is null or blank, when the class's simple name is used |
| `GenericExceptionAdvice.ResolveMessageNotBlank` | src/main/java/com/logicsoft/molina/exception/ApiResponseGenericExceptionAdvice.java:67-70 | the resolved message is never blank for a named class |
| `GenericExceptionAdvice.Base` | src/main/java/com/logicsoft/molina/exception/ApiResponseGenericExceptionAdvice.java:53-59 | a new envelope: timestamp, the status, result false, and nothing else |
| `GenericExceptionAdvice.HandleValidation` | src/main/java/com/logicsoft/molina/exception/ApiResponseGenericExceptionAdvice.java:24-40 | 400, "Validation error", the first-wins field map, and the servlet response set to 400 and application/json |
| `GenericExceptionAdvice.HandleAny` | src/main/java/com/logicsoft/molina/exception/ApiResponseGenericExceptionAdvice.java:42-51 | the resolved status on both the envelope and the response, the resolved message, and no errors map |
| `GenericExceptionAdvice.Handle` | src/main/java/com/logicsoft/molina/exception/ApiResponseGenericExceptionAdvice.java:24-51 | the response status equals the envelope status; a map is attached exactly for MethodArgumentNotValidException |
| `ConstraintViolationAdvice.LeafNameSuffix` | src/main/java/com/logicsoft/molina/exception/ApiResponseConstraintViolationAdvice.java:43-47 | the leaf name is a suffix of the path |
| `ConstraintViolationAdvice.LeafNameShape` | src/main/java/com/logicsoft/molina/exception/ApiResponseConstraintViolationAdvice.java:45-46 | a leaf name other than the path is the non-empty, dot-free text after the path's last '.' |
| `ConstraintViolationAdvice.LeafNameChangesIff` | src/main/java/com/logicsoft/molina/exception/ApiResponseConstraintViolationAdvice.java:44-46 | the path changes iff it is non-blank, has a '.', and does not end in one; so "a." and a blank path stay whole |
| `ConstraintViolationAdvice.LeafNameAgreesWithLastSegment` | src/main/java/com/logicsoft/molina/exception/ApiResponseConstraintViolationAdvice.java:43-47 | on paths without '[' that do not end in '.', `leafName` and `lastSegment` agree |
| `ConstraintViolationAdvice.LeafNameKeepsIndex` | src/main/java/com/logicsoft/molina/exception/ApiResponseConstraintViolationAdvice.java:45-46 | "items[2]" keeps its index group here and loses it in `lastSegment` |
| `ConstraintViolationAdvice.LeafViolationMap` | src/main/java/com/logicsoft/molina/exception/ApiResponseConstraintViolationAdvice.java:24-30 | the map exists iff every violation has a message, because a null value makes the merge throw |
| `ConstraintViolationAdvice.LeafViolationFirstWins` | src/main/java/com/logicsoft/molina/exception/ApiResponseConstraintViolationAdvice.java:24-30 | the first violation with a given leaf name decides its message |
| `ConstraintViolationAdvice.HandleConstraintViolation` | src/main/java/com/logicsoft/molina/exception/ApiResponseConstraintViolationAdvice.java:22-41 | 400, "Validation error", the leaf map, and the response set to 400 and application/json; when the map cannot be built, nothing is returned and the response is untouched |
| `Annotations.FindResponseHandler` | src/main/java/com/logicsoft/molina/core/ApiResponseMvcAdvice.java:114-117 | the method's annotation if present, else the declaring class's |
| `Annotations.ResolveConfig` | src/main/java/com/logicsoft/molina/core/ApiResponseResultHandler.java:67-71 | the found annotation's status and flag, or 200 and true without one |
| `JavaStrings.IsWhitespace` | src/main/java/com/logicsoft/molina/core/ApiResponseResultHandler.java:165 | the characters `Character.isWhitespace` accepts |
| `JavaStrings.IsBlank` | src/main/java/com/logicsoft/molina/core/ApiResponseResultHandler.java:165 | `isBlank`: empty or whitespace only |
| `JavaStrings.IsLineTerminator` | src/main/java/com/logicsoft/molina/core/ApiResponseResultHandler.java:177 | the characters a regular-expression `.` does not match |
| `JavaStrings.StripBracketGroups` | src/main/java/com/logicsoft/molina/core/ApiResponseResultHandler.java:177 | `replaceAll("\\[.*?]", "")`: each '[' with a matching ']' starts a deleted group |
| `LinkedMaps.Put` | src/main/java/com/logicsoft/molina/exception/ApiResponseReactiveExceptionAdvice.java:28 | `put`: overwrite in place, or append a new key |
| `LinkedMaps.PutIfAbsent` | src/main/java/com/logicsoft/molina/exception/ApiResponseReactiveExceptionAdvice.java:29 | `putIfAbsent`: writes only when the key is missing or mapped to null |
| `LinkedMaps.MergeFirst` | src/main/java/com/logicsoft/molina/exception/ApiResponseConstraintViolationAdvice.java:28 | `merge` with `(a, b) -> a`: a present key keeps its value |
| `LinkedMaps.PutAll` | src/main/java/com/logicsoft/molina/core/ApiResponseResultHandler.java:163-167 | successive puts into an empty map |
| `LinkedMaps.MergeFirstAll` | src/main/java/com/logicsoft/molina/exception/ApiResponseGenericExceptionAdvice.java:26-32 | successive first-wins merges into an empty map |
| `Exceptions.IsResponseStatusException` | src/main/java/com/logicsoft/molina/core/ApiResponseResultHandler.java:150 | `instanceof ResponseStatusException`, including its web-input subclasses |
| `Exceptions.IsErrorResponseException` | src/main/java/com/logicsoft/molina/exception/ApiResponseGenericExceptionAdvice.java:62 | `instanceof ErrorResponseException` |
| `Exceptions.StatusCodeOf` | src/main/java/com/logicsoft/molina/core/ApiResponseResultHandler.java:150 | `getStatusCode().value()`; 400 for every ServerWebInputException |
| `Exceptions.ReasonOf` | src/main/java/com/logicsoft/molina/core/ApiResponseResultHandler.java:158 | `getReason()` of a ResponseStatusException, null allowed |
| `Reactor.Map` | src/main/java/com/logicsoft/molina/core/ApiResponseResultHandler.java:80 | `map` transforms a value and passes emptiness and errors on |
| `Reactor.OnErrorReturn` | src/main/java/com/logicsoft/molina/core/ApiResponseResultHandler.java:81 | `onErrorResume(ex -> Mono.just(..))` replaces an error by a value |
| `Reactor.CollectList` | src/main/java/com/logicsoft/molina/core/ApiResponseResultHandler.java:88-89 | `collectList`: all items on completion, the error otherwise |
| `ComResultHandler.Supports` | src/main/java/com/logicsoft/molina/core/ApiResponseResultHandler.java:47-62 | `supports`: an annotation is found on the method or its declaring class, whatever the return type |
| `ComResultHandler.LogsNestedPublisher` | src/main/java/com/logicsoft/molina/core/ApiResponseResultHandler.java:53-60 | when `supports` logs a nested publisher |
| `ComResultHandler.OkView` | src/main/java/com/logicsoft/molina/core/ApiResponseResultHandler.java:124-131 | the envelope `okEnvelope` fills: the given status, flag and data, no errors or message |
| `ComResultHandler.StatusFromException` | src/main/java/com/logicsoft/molina/core/ApiResponseResultHandler.java:149-153 | a ResponseStatusException's code, 400 for a ConstraintViolationException, 500 otherwise |
| `ComResultHandler.ErrorMessage` | src/main/java/com/logicsoft/molina/core/ApiResponseResultHandler.java:135-136 | "Validation error" for status 400, else "Request failed" for a ResponseStatusException, else "Unexpected error" |
| `ComResultHandler.LastSegment` | src/main/java/com/logicsoft/molina/core/ApiResponseResultHandler.java:173-178 | `lastSegment`, shared with ApiResponseReactiveExceptionAdvice.java:79-84, whose body is the same |
| `ComResultHandler.ViolationKey` | src/main/java/com/logicsoft/molina/core/ApiResponseResultHandler.java:164-165 | the key of one violation: its last segment, or `_violation` when blank |
| `ComResultHandler.ViolationEntries` | src/main/java/com/logicsoft/molina/core/ApiResponseResultHandler.java:163-166 | one put per violation, message or "invalid" |
| `ComResultHandler.ErrorsOf` | src/main/java/com/logicsoft/molina/core/ApiResponseResultHandler.java:155-171 | `{_reason}` or empty for a ResponseStatusException, the violation map for a ConstraintViolationException, null otherwise |
| `ComResultHandler.Emitted` | src/main/java/com/logicsoft/molina/core/ApiResponseResultHandler.java:82-85 | the envelope that reaches `flatMap`, if any |
| `MvcAdvice.Supports` | src/main/java/com/logicsoft/molina/core/ApiResponseMvcAdvice.java:67-71 | `supports`: an annotation is found on the method or its declaring class |
| `MvcAdvice.StatusAfter` | src/main/java/com/logicsoft/molina/core/ApiResponseMvcAdvice.java:123-132 | the response status after `setStatusIfNotExplicit`, or none when it throws |
| `MvcAdvice.JsonIfAbsent` | src/main/java/com/logicsoft/molina/core/ApiResponseMvcAdvice.java:134-139 | the content type after `setJsonContentTypeIfAbsent` |
| `MvcAdvice.MaybeToJson` | src/main/java/com/logicsoft/molina/core/ApiResponseMvcAdvice.java:141-150 | JSON text for a String converter, the envelope object otherwise |
| `OrgResultHandler.Supports` | src/main/java/org/logicsoft/molina/core/ApiResponseResultHandler.java:37-45 | `supports`: an annotation is found on the method or its containing class |
| `OrgResultHandler.OkEnvelope` | src/main/java/org/logicsoft/molina/core/ApiResponseResultHandler.java:116-123 | the envelope `okEnvelope` fills: the given status, flag and data, no message |
| `ReactiveExceptionAdvice.Accepts` | src/main/java/com/logicsoft/molina/exception/ApiResponseReactiveExceptionAdvice.java:25-68 | the exception is an instance of a handler's declared type |
| `ReactiveExceptionAdvice.Depth` | src/main/java/com/logicsoft/molina/exception/ApiResponseReactiveExceptionAdvice.java:25-68 | how far below Throwable each declared type sits |
| `ReactiveExceptionAdvice.ErrorBody` | src/main/java/com/logicsoft/molina/exception/ApiResponseReactiveExceptionAdvice.java:90-99 | the envelope `error` fills: the given status, message and map, result false, no data |
| `ReactiveExceptionAdvice.FieldEntries` | src/main/java/com/logicsoft/molina/exception/ApiResponseReactiveExceptionAdvice.java:28 | one put per field error |
| `ReactiveExceptionAdvice.GlobalFill` | src/main/java/com/logicsoft/molina/exception/ApiResponseReactiveExceptionAdvice.java:29 | one `putIfAbsent("_global", ..)` per global error |
| `ReactiveExceptionAdvice.BindErrorMap` | src/main/java/com/logicsoft/molina/exception/ApiResponseReactiveExceptionAdvice.java:27-29 | the map `handleBind` builds: field puts, then the `_global` putIfAbsents |
| `ReactiveExceptionAdvice.InputKey` | src/main/java/com/logicsoft/molina/exception/ApiResponseReactiveExceptionAdvice.java:38 | the parameter's name, or `_request` without a parameter |
| `ReactiveExceptionAdvice.ReasonErrors` | src/main/java/com/logicsoft/molina/exception/ApiResponseReactiveExceptionAdvice.java:61-62 | `handleRse`'s map: `{_reason: reason}` when the reason is non-null, else empty |
| `ReactiveExceptionAdvice.MessageErrors` | src/main/java/com/logicsoft/molina/exception/ApiResponseReactiveExceptionAdvice.java:70-71 | `handleAny`'s map: `{_error: message}` when the message is non-null, else empty |
| `GenericExceptionAdvice.FieldErrorEntries` | src/main/java/com/logicsoft/molina/exception/ApiResponseGenericExceptionAdvice.java:28-29 | one pair per field error, message or "Invalid" |
| `GenericExceptionAdvice.FieldErrorMap` | src/main/java/com/logicsoft/molina/exception/ApiResponseGenericExceptionAdvice.java:26-32 | the first-wins field map |
| `GenericExceptionAdvice.ResolveStatus` | src/main/java/com/logicsoft/molina/exception/ApiResponseGenericExceptionAdvice.java:61-65 | `resolveStatus`: an ErrorResponseException's own code, 400 for an IllegalArgumentException, 500 otherwise |
| `ConstraintViolationAdvice.LeafName` | src/main/java/com/logicsoft/molina/exception/ApiResponseConstraintViolationAdvice.java:43-47 | `leafName`: a blank path unchanged; the text after the last '.' when that '.' is not the last character; otherwise the whole path |
| `ConstraintViolationAdvice.LeafEntries` | src/main/java/com/logicsoft/molina/exception/ApiResponseConstraintViolationAdvice.java:24-30 | one pair per violation: leaf name and raw message |

## Left out

- Logging (`log.error`, `log.warn`). The model keeps only when the warning fires and the once-only latch, as a ghost counter.
- `AtomicBoolean` thread safety. `compareAndSet` is a sequential check-and-set.
- Reactor scheduling, laziness and backpressure. `Mono` and `Flux` are finite data.
- `write`, `methodParameterForApiResponse`, `Dummy` and the delegate result handler. They are reflection and writer calls into Spring. The model stops at the envelope handed to the writer.
- Jackson serialization in `maybeToJson`. The JSON text is represented by the envelope it encodes, and a serialization failure is not modelled.
- Reflection-based annotation lookup. The method and class annotations are explicit `Option` inputs.
- `Instant.now()`. The instant is the parameter `now`.
- `HttpStatus.valueOf`. Its set of known codes is the parameter `known`. `HttpStatusCode.valueOf` is the range check 100..999.
- Spring bean wiring and configuration properties. `ResponseHandlerAutoConfiguration.java` and `ReactiveResponseAutoConfiguration.java` are not part of this model; the advice's two bean probes and its warn flag are constructor inputs.
- The order in which Spring picks between the two servlet advices (both at highest precedence) for a ConstraintViolationException.
- Iteration order of a `HashMap`. The model lists entries in insertion order, and only lookups and key sets are meaningful for the `com` handler's and the generic advice's maps.
- `GenericExceptionAdvice.HandleAny`: a `java.lang.Error` is not told apart from an `Exception`. The handler declares `Exception`, so errors never reach it in Spring.
- The null-path branch of `lastSegment` and `leafName`. `String.valueOf` and `toString()` of a property path are never null.
- `ExceptionHandler` selection across exception causes. `handleAny` declares `Throwable`, so the thrown exception itself always matches.
- The `ResponseHandler` annotation type of the `org` package is not part of this model. It is taken to have the same elements and defaults as the `com` one.
