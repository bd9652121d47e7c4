/**
 * The servlet-side generic exception advice: bean-validation failures of a
 * request body become a 400 envelope with a first-wins field map; any other
 * exception becomes an envelope whose status follows the exception and whose
 * message is the exception's message, or its simple class name when that
 * message is null or blank. Both handlers set the servlet response's status
 * and a JSON content type.
 */
module GenericExceptionAdvice {
  import opened Wrappers
  import opened JavaStrings
  import opened Exceptions
  import opened LinkedMaps
  import opened Http
  import opened ComApi

  /** One `(field, defaultMessage or "Invalid")` pair per field error. */
  function FieldErrorEntries(fes: seq<FieldError>): seq<(Option<string>, Option<string>)> {
    seq(|fes|, i requires 0 <= i < |fes| => (Some(fes[i].field), Some(fes[i].defaultMessage.GetOr("Invalid"))))
  }

  /** `Collectors.toMap(getField, ..., (a, b) -> a, HashMap::new)`. */
  function FieldErrorMap(fes: seq<FieldError>): ErrorMap {
    MergeFirstAll(FieldErrorEntries(fes))
  }

  /** A field maps to the message of its first field error ("Invalid" when
      that one has none); every field with an error is a key, and no other. */
  lemma FieldErrorMapFirstWins(fes: seq<FieldError>, i: nat)
    requires i < |fes|
    requires forall j | 0 <= j < i :: fes[j].field != fes[i].field
    ensures Lookup(FieldErrorMap(fes), Some(fes[i].field)) == Some(Some(fes[i].defaultMessage.GetOr("Invalid")))
  {
    MergeFirstAllFirstWins(FieldErrorEntries(fes), i);
  }

  lemma FieldErrorMapKeys(fes: seq<FieldError>, k: Option<string>)
    ensures k in Keys(FieldErrorMap(fes)) <==> exists i :: 0 <= i < |fes| && Some(fes[i].field) == k
    ensures KeysUnique(FieldErrorMap(fes))
  {
    var es := FieldErrorEntries(fes);
    FoldsKeySet(es, k);
    FoldsKeysUnique(es);
    if exists i :: 0 <= i < |es| && es[i].0 == k {
      var i :| 0 <= i < |es| && es[i].0 == k;
      assert Some(fes[i].field) == k;
    }
    if exists i :: 0 <= i < |fes| && Some(fes[i].field) == k {
      var i :| 0 <= i < |fes| && Some(fes[i].field) == k;
      assert es[i].0 == k;
    }
  }

  /** `resolveStatus`. */
  function ResolveStatus(ex: Throwable): int {
    if IsErrorResponseException(ex) then StatusCodeOf(ex)
    else if ex.kind.IllegalArgument? then BAD_REQUEST
    else INTERNAL_SERVER_ERROR
  }

  /** An ErrorResponseException answers its own code, an
      IllegalArgumentException 400, and anything else 500. Through the
      hierarchy, every ServerWebInputException (and so every
      WebExchangeBindException) answers 400 and a ResponseStatusException its
      own code. */
  lemma ResolveStatusByFamily(ex: Throwable)
    ensures IsErrorResponseException(ex) ==> ResolveStatus(ex) == StatusCodeOf(ex)
    ensures ex.kind.IllegalArgument? ==> ResolveStatus(ex) == 400
    ensures !IsErrorResponseException(ex) && !ex.kind.IllegalArgument? ==> ResolveStatus(ex) == 500
    ensures IsServerWebInputException(ex) ==> ResolveStatus(ex) == 400
    ensures ex.kind.ResponseStatus? ==> ResolveStatus(ex) == ex.kind.code
    ensures ex.kind.ConstraintViolation? || ex.kind.MethodArgumentNotValid? || ex.kind.Other? ==>
              ResolveStatus(ex) == 500
  {
  }

  /** `resolveMessage`: the message, unless null or blank. */
  function ResolveMessage(ex: Throwable): (m: string)
    ensures ex.message.Some? && !IsBlank(ex.message.value) ==> m == ex.message.value
    ensures ex.message.None? || IsBlank(ex.message.value) ==> m == ex.simpleName
  {
    if ex.message.None? || IsBlank(ex.message.value) then ex.simpleName else ex.message.value
  }

  /** The message is blank only for an exception of an anonymous class
      (empty simple name) whose own message is null or blank. */
  lemma ResolveMessageNotBlank(ex: Throwable)
    requires !IsBlank(ex.simpleName)
    ensures !IsBlank(ResolveMessage(ex))
  {
  }

  /** `base(status)`. */
  method Base(status: int, now: int) returns (env: ApiResponse)
    ensures fresh(env) && env.View() == Envelope(Some(now), status, false, None, None, None)
  {
    env := new ApiResponse();
    env.SetTimestamp(Some(now));
    env.SetResult(false);
    env.SetStatus(status);
  }

  method HandleValidation(ex: Throwable, response: ServletResponse, now: int) returns (env: ApiResponse)
    requires ex.kind.MethodArgumentNotValid?
    modifies response
    ensures fresh(env)
    ensures env.View() == Envelope(Some(now), 400, false, None,
                                   Some(FieldErrorMap(ex.kind.fieldErrors)), Some("Validation error"))
    ensures response.status == 400 && response.contentType == Some(APPLICATION_JSON)
  {
    var fieldErrors := FieldErrorMap(ex.kind.fieldErrors);
    env := Base(BAD_REQUEST, now);
    env.SetMessage(Some("Validation error"));
    env.SetErrors(Some(fieldErrors));
    response.SetStatus(BAD_REQUEST);
    response.SetContentType(APPLICATION_JSON);
  }

  method HandleAny(ex: Throwable, response: ServletResponse, now: int) returns (env: ApiResponse)
    modifies response
    ensures fresh(env)
    ensures env.View() == Envelope(Some(now), ResolveStatus(ex), false, None, None, Some(ResolveMessage(ex)))
    ensures response.status == ResolveStatus(ex) && response.contentType == Some(APPLICATION_JSON)
  {
    var status := ResolveStatus(ex);
    env := Base(status, now);
    env.SetMessage(Some(ResolveMessage(ex)));
    response.SetStatus(status);
    response.SetContentType(APPLICATION_JSON);
  }

  /** The advice as Spring drives it: the validation handler for a
      MethodArgumentNotValidException, the catch-all otherwise. The response
      status always equals the envelope's. */
  method Handle(ex: Throwable, response: ServletResponse, now: int) returns (env: ApiResponse)
    modifies response
    ensures fresh(env)
    ensures var e := env.View();
            e.status == response.status && !e.result && e.data.None? && e.message.Some?
            && (e.errors.Some? <==> ex.kind.MethodArgumentNotValid?)
    ensures response.contentType == Some(APPLICATION_JSON)
  {
    if ex.kind.MethodArgumentNotValid? {
      env := HandleValidation(ex, response, now);
    } else {
      env := HandleAny(ex, response, now);
    }
  }
}
