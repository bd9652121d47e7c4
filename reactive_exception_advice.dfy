/**
 * The WebFlux exception advice of the `com` package: one handler per
 * exception type, each answering with a ResponseEntity whose status equals
 * the envelope's, result false, no data, and an errors map that is always
 * attached (possibly empty). Maps are LinkedHashMaps, so the key order is
 * insertion order.
 */
module ReactiveExceptionAdvice {
  import opened Wrappers
  import opened Exceptions
  import opened LinkedMaps
  import opened ComApi
  import opened ComResultHandler

  /** The handler methods, by the exception type each declares. */
  datatype Handler = HandleBind | HandleInput | HandleCve | HandleRse | HandleAny

  /** The thrown exception is an instance of the handler's declared type. */
  predicate Accepts(h: Handler, ex: Throwable) {
    match h
    case HandleBind => ex.kind.WebExchangeBind?
    case HandleInput => IsServerWebInputException(ex)
    case HandleCve => ex.kind.ConstraintViolation?
    case HandleRse => IsResponseStatusException(ex)
    case HandleAny => true
  }

  /** How far below Throwable the declared type sits. */
  function Depth(h: Handler): nat {
    match h
    case HandleBind => 7        // ... ServerWebInputException > WebExchangeBindException
    case HandleInput => 6       // ... ResponseStatusException > ServerWebInputException
    case HandleRse => 5         // Exception > RuntimeException > NestedRuntimeException > ErrorResponseException > ResponseStatusException
    case HandleCve => 4         // Exception > RuntimeException > ValidationException > ConstraintViolationException
    case HandleAny => 0
  }

  /** The handler Spring invokes: the accepting one whose declared type is
      closest to the thrown exception's class. */
  function HandlerFor(ex: Throwable): (h: Handler)
    ensures Accepts(h, ex)
    ensures forall h' :: Accepts(h', ex) ==> Depth(h') <= Depth(h)
  {
    if ex.kind.WebExchangeBind? then HandleBind
    else if IsServerWebInputException(ex) then HandleInput
    else if IsResponseStatusException(ex) then HandleRse
    else if ex.kind.ConstraintViolation? then HandleCve
    else HandleAny
  }

  /* ---------- helpers ---------- */

  /** The envelope `error(status, message, errors)` fills at instant `now`. */
  function ErrorBody(status: int, message: string, errors: ErrorMap, now: int): Envelope {
    Envelope(Some(now), status, false, None, Some(errors), Some(message))
  }

  method Error(status: int, message: string, errors: ErrorMap, now: int) returns (r: ApiResponse)
    ensures fresh(r) && r.View() == ErrorBody(status, message, errors, now)
  {
    r := new ApiResponse();
    r.SetTimestamp(Some(now));
    r.SetStatus(status);
    r.SetResult(false);
    r.SetMessage(Some(message));
    r.SetErrors(Some(errors));
    r.SetData(None);
  }

  method Error400(message: string, errors: ErrorMap, now: int) returns (r: ApiResponse)
    ensures fresh(r) && r.View() == ErrorBody(400, message, errors, now)
  {
    r := Error(400, message, errors, now);
  }

  /* ---------- handleBind ---------- */

  /** One `put(field, defaultMessage)` per field error. */
  function FieldEntries(fes: seq<FieldError>): seq<(Option<string>, Option<string>)> {
    seq(|fes|, i requires 0 <= i < |fes| => (Some(fes[i].field), fes[i].defaultMessage))
  }

  const GLOBAL: Option<string> := Some("_global")

  /** One `putIfAbsent("_global", defaultMessage)` per global error. */
  function GlobalFill(m: ErrorMap, ges: seq<ObjectError>): ErrorMap {
    if ges == [] then m
    else PutIfAbsent(GlobalFill(m, ges[..|ges| - 1]), GLOBAL, ges[|ges| - 1].defaultMessage)
  }

  function BindErrorMap(fes: seq<FieldError>, ges: seq<ObjectError>): ErrorMap {
    GlobalFill(PutAll(FieldEntries(fes)), ges)
  }

  /** The two `forEach` loops of `handleBind`. */
  method BindErrors(fes: seq<FieldError>, ges: seq<ObjectError>) returns (errors: ErrorMap)
    ensures errors == BindErrorMap(fes, ges)
  {
    var es := FieldEntries(fes);
    errors := [];
    var i := 0;
    while i < |fes|
      invariant 0 <= i <= |fes|
      invariant errors == PutAll(es[..i])
    {
      assert es[..i + 1][..i] == es[..i];
      errors := Put(errors, Some(fes[i].field), fes[i].defaultMessage);
      i := i + 1;
    }
    assert es[..|fes|] == es;
    ghost var fields := errors;
    var j := 0;
    while j < |ges|
      invariant 0 <= j <= |ges|
      invariant errors == GlobalFill(fields, ges[..j])
    {
      assert ges[..j + 1][..j] == ges[..j];
      errors := PutIfAbsent(errors, GLOBAL, ges[j].defaultMessage);
      j := j + 1;
    }
    assert ges[..|ges|] == ges;
  }

  /** Global errors touch no key but "_global". */
  lemma {:induction false} GlobalFillOthers(m: ErrorMap, ges: seq<ObjectError>, k: Option<string>)
    requires k != GLOBAL
    ensures Lookup(GlobalFill(m, ges), k) == Lookup(m, k)
  {
    if ges != [] {
      var prev := GlobalFill(m, ges[..|ges| - 1]);
      GlobalFillOthers(m, ges[..|ges| - 1], k);
      PutLookup(prev, GLOBAL, ges[|ges| - 1].defaultMessage, k);
    }
  }

  /** A non-null "_global" value is never replaced by a global error. */
  lemma {:induction false} GlobalKeepsMessage(m: ErrorMap, ges: seq<ObjectError>)
    requires Lookup(m, GLOBAL).Some? && Lookup(m, GLOBAL).value.Some?
    ensures Lookup(GlobalFill(m, ges), GLOBAL) == Lookup(m, GLOBAL)
  {
    if ges != [] {
      GlobalKeepsMessage(m, ges[..|ges| - 1]);
    }
  }

  /** Global errors without a message leave "_global" mapped to null. */
  lemma {:induction false} GlobalAllNull(m: ErrorMap, ges: seq<ObjectError>)
    requires !(Lookup(m, GLOBAL).Some? && Lookup(m, GLOBAL).value.Some?)
    requires ges != [] && forall j | 0 <= j < |ges| :: ges[j].defaultMessage.None?
    ensures Lookup(GlobalFill(m, ges), GLOBAL) == Some(None)
  {
    var init := ges[..|ges| - 1];
    var prev := GlobalFill(m, init);
    if init != [] {
      GlobalAllNull(m, init);
    }
    PutLookup(prev, GLOBAL, ges[|ges| - 1].defaultMessage, GLOBAL);
  }

  /** Unless a field error already put a message under "_global", the first
      global error with a message is the one kept. */
  lemma {:induction false} GlobalFirstWins(m: ErrorMap, ges: seq<ObjectError>, i: nat)
    requires !(Lookup(m, GLOBAL).Some? && Lookup(m, GLOBAL).value.Some?)
    requires i < |ges| && ges[i].defaultMessage.Some?
    requires forall j | 0 <= j < i :: ges[j].defaultMessage.None?
    ensures Lookup(GlobalFill(m, ges), GLOBAL) == Some(ges[i].defaultMessage)
  {
    var init := ges[..|ges| - 1];
    var prev := GlobalFill(m, init);
    if i < |ges| - 1 {
      GlobalFirstWins(m, init, i);
    } else {
      if init != [] {
        GlobalAllNull(m, init);
      }
      PutLookup(prev, GLOBAL, ges[|ges| - 1].defaultMessage, GLOBAL);
    }
  }

  /** In the bind map a field keeps the message of its last field error,
      unless it is "_global" and global errors overwrite a null message. */
  lemma BindFieldLastWins(fes: seq<FieldError>, ges: seq<ObjectError>, i: nat)
    requires i < |fes| && fes[i].field != "_global"
    requires forall j | i < j < |fes| :: fes[j].field != fes[i].field
    ensures Lookup(BindErrorMap(fes, ges), Some(fes[i].field)) == Some(fes[i].defaultMessage)
  {
    var es := FieldEntries(fes);
    PutAllLastWins(es, i);
    GlobalFillOthers(PutAll(es), ges, Some(fes[i].field));
  }

  method HandleBindException(ex: Throwable, now: int) returns (status: int, body: ApiResponse)
    requires ex.kind.WebExchangeBind?
    ensures status == 400 && fresh(body)
    ensures body.View() == ErrorBody(400, "WebExchangeBindException error",
                                     BindErrorMap(ex.kind.fieldErrors, ex.kind.globalErrors), now)
  {
    var errors := BindErrors(ex.kind.fieldErrors, ex.kind.globalErrors);
    status := 400;
    body := Error400("WebExchangeBindException error", errors, now);
  }

  /* ---------- handleInput ---------- */

  /** The key of the single entry: the parameter's name (possibly null), or
      "_request" without a parameter. */
  function InputKey(ex: Throwable): Option<string>
    requires IsServerWebInputException(ex)
  {
    if ex.kind.parameter.Some? then ex.kind.parameter.value.parameterName else Some("_request")
  }

  method HandleInputException(ex: Throwable, now: int) returns (status: int, body: ApiResponse)
    requires IsServerWebInputException(ex)
    ensures status == 400 && fresh(body)
    ensures body.View() == ErrorBody(400, "ServerWebInputException error",
                                     [(InputKey(ex), Some(ex.kind.reason.GetOr("Invalid request parameter")))], now)
  {
    var errors: ErrorMap := [];
    var param := if ex.kind.parameter.Some? then ex.kind.parameter.value.parameterName else Some("_request");
    var msg := if ex.kind.reason.Some? then ex.kind.reason.value else "Invalid request parameter";
    errors := Put(errors, param, Some(msg));
    assert errors == [(param, Some(msg))];
    status := 400;
    body := Error400("ServerWebInputException error", errors, now);
  }

  /* ---------- handleCve ---------- */

  method HandleCveException(ex: Throwable, now: int) returns (status: int, body: ApiResponse)
    requires ex.kind.ConstraintViolation?
    ensures status == 400 && fresh(body)
    ensures body.View() == ErrorBody(400, "Validation error", PutAll(ViolationEntries(ex.kind.violations)), now)
  {
    var errors := ViolationErrors(ex.kind.violations);
    status := 400;
    body := Error400("Validation error", errors, now);
  }

  /* ---------- handleRse ---------- */

  /** `{_reason: reason}` when the reason is non-null, else empty. */
  function ReasonErrors(ex: Throwable): ErrorMap
    requires IsResponseStatusException(ex)
  {
    if ReasonOf(ex).Some? then [(Some("_reason"), ReasonOf(ex))] else []
  }

  method HandleRseException(ex: Throwable, now: int) returns (status: int, body: ApiResponse)
    requires IsResponseStatusException(ex)
    ensures status == StatusCodeOf(ex) && fresh(body)
    ensures body.View() == ErrorBody(StatusCodeOf(ex), "Request failed", ReasonErrors(ex), now)
  {
    var errors: ErrorMap := [];
    if ReasonOf(ex).Some? {
      errors := Put(errors, Some("_reason"), ReasonOf(ex));
      assert errors == [(Some("_reason"), ReasonOf(ex))];
    }
    status := StatusCodeOf(ex);
    body := Error(StatusCodeOf(ex), "Request failed", errors, now);
  }

  /* ---------- handleAny ---------- */

  /** `{_error: message}` when the message is non-null, else empty. */
  function MessageErrors(ex: Throwable): ErrorMap {
    if ex.message.Some? then [(Some("_error"), ex.message)] else []
  }

  method HandleAnyException(ex: Throwable, now: int) returns (status: int, body: ApiResponse)
    ensures status == 500 && fresh(body)
    ensures body.View() == ErrorBody(500, "Unexpected error", MessageErrors(ex), now)
  {
    var errors: ErrorMap := [];
    if ex.message.Some? {
      errors := Put(errors, Some("_error"), ex.message);
      assert errors == [(Some("_error"), ex.message)];
    }
    status := 500;
    body := Error(500, "Unexpected error", errors, now);
  }

  /** The advice as Spring drives it: the closest handler answers, and the
      HTTP status always equals the envelope's. */
  method Handle(ex: Throwable, now: int) returns (status: int, body: ApiResponse)
    ensures fresh(body)
    ensures var e := body.View();
            e.status == status && !e.result && e.data.None? && e.errors.Some? && e.message.Some?
    ensures status == (match HandlerFor(ex)
                       case HandleRse => StatusCodeOf(ex)
                       case HandleAny => 500
                       case _ => 400)
  {
    match HandlerFor(ex) {
      case HandleBind => status, body := HandleBindException(ex, now);
      case HandleInput => status, body := HandleInputException(ex, now);
      case HandleCve => status, body := HandleCveException(ex, now);
      case HandleRse => status, body := HandleRseException(ex, now);
      case HandleAny => status, body := HandleAnyException(ex, now);
    }
  }

  /** The map of each handler, in terms of the exception: exactly one entry
      for an input error; "_reason" / "_error" exactly when the reason /
      message is non-null. */
  lemma SingleEntryMaps(ex: Throwable)
    ensures IsResponseStatusException(ex) ==>
              (Lookup(ReasonErrors(ex), Some("_reason")).Some? <==> ReasonOf(ex).Some?)
              && |ReasonErrors(ex)| <= 1
    ensures (Lookup(MessageErrors(ex), Some("_error")).Some? <==> ex.message.Some?)
            && |MessageErrors(ex)| <= 1
  {
  }
}
