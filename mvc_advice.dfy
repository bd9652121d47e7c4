/**
 * The Spring MVC body advice of the `com` package: it wraps an annotated
 * handler's body in an `ApiResponse` right before it is written, passes
 * ProblemDetail and ResponseEntity bodies through, never wraps an envelope
 * twice, does not overwrite a status someone else already set, sets a JSON
 * content type only when none is present, and warns once when bean
 * validation is not active.
 */
module MvcAdvice {
  import opened Wrappers
  import opened Payloads
  import opened Http
  import opened Annotations
  import opened ComApi

  /** The body a handler returned. `Plain(None)` is null. */
  datatype Body =
    | ProblemDetail(id: nat)
    | ResponseEntity(id: nat)
    | Wrapped(envelope: ApiResponse)
    | Plain(value: Option<Payload>)

  /** What `beforeBodyWrite` hands to the converter: the body itself, an
      envelope's JSON text, an envelope object; or it throws. */
  datatype Written =
    | Unchanged(body: Body)
    | Json(of: Envelope)
    | Object(envelope: ApiResponse)
    | Threw

  /** `supports`: the method or its declaring class carries `@ResponseHandler`. */
  function Supports(onMethod: Option<ResponseHandler>, onClass: Option<ResponseHandler>): bool {
    FindResponseHandler(onMethod, onClass).Some?
  }

  /** The advice applies exactly to annotated methods, and the annotation it
      then reads is the method's when there is one. */
  lemma SupportsIffAnnotated(onMethod: Option<ResponseHandler>, onClass: Option<ResponseHandler>)
    ensures Supports(onMethod, onClass) <==> onMethod.Some? || onClass.Some?
    ensures Supports(onMethod, onClass) ==>
              FindResponseHandler(onMethod, onClass) == (if onMethod.Some? then onMethod else onClass)
  {
  }

  /** `normalizeStatus`: a positive status stays, anything else becomes 200. */
  function NormalizeStatus(status: int): (r: int)
    ensures r > 0
    ensures status > 0 ==> r == status
  {
    if status > 0 then status else OK
  }

  /** An envelope made by the no-args constructor and never given a status
      is sent as 200; normalising twice changes nothing. */
  lemma NormalizeStatusFacts(status: int)
    ensures NormalizeStatus(NormalizeStatus(status)) == NormalizeStatus(status)
    ensures status <= 0 ==> NormalizeStatus(status) == OK
  {
  }

  /** The response status after `setStatusIfNotExplicit(response, status)`,
      None when `HttpStatusCode.valueOf` throws. A servlet response whose
      status is no longer 200 is left alone. */
  function StatusAfter(isServlet: bool, current: int, status: int): Option<int> {
    if isServlet && current != OK then Some(current)
    else if IsStatusCode(status) then Some(status)
    else None
  }

  /** The non-clobber rule: an explicit servlet status survives; otherwise a
      valid status is written. */
  lemma NonClobber(isServlet: bool, current: int, status: int)
    ensures isServlet && current != OK ==> StatusAfter(isServlet, current, status) == Some(current)
    ensures (!isServlet || current == OK) && IsStatusCode(status) ==> StatusAfter(isServlet, current, status) == Some(status)
    ensures StatusAfter(isServlet, current, status).None? ==> !IsStatusCode(status)
  {
  }

  method SetStatusIfNotExplicit(response: ServerHttpResponse, status: int) returns (threw: bool)
    modifies response`status
    ensures var after := StatusAfter(response.isServlet, old(response.status), status);
            threw == after.None? && response.status == if threw then old(response.status) else after.value
  {
    threw := false;
    if response.isServlet {
      var current := response.status;
      if current == OK {
        if !IsStatusCode(status) {
          return true;
        }
        response.status := status;
      }
    } else {
      if !IsStatusCode(status) {
        return true;
      }
      response.status := status;
    }
  }

  /** The content type after `setJsonContentTypeIfAbsent`. */
  function JsonIfAbsent(contentType: Option<string>): Option<string> {
    if contentType.Some? then contentType else Some(APPLICATION_JSON)
  }

  method SetJsonContentTypeIfAbsent(response: ServerHttpResponse)
    modifies response`contentType
    ensures response.contentType == JsonIfAbsent(old(response.contentType))
  {
    if response.contentType.None? {
      response.contentType := Some(APPLICATION_JSON);
    }
  }

  /** `maybeToJson`: a String converter gets the envelope's JSON text,
      every other converter the envelope itself. */
  function MaybeToJson(stringConverter: bool, env: ApiResponse): Written
    reads env
  {
    if stringConverter then Json(env.View()) else Object(env)
  }

  class Advice {
    const validationActive: bool
    const warnWhenInactive: bool
    var warnedOnce: bool
    /** How many times the inactive-validation warning has been logged. */
    ghost var warnings: nat

    ghost predicate Valid()
      reads this
    {
      && warnings == (if warnedOnce then 1 else 0)
      && (warnedOnce ==> !validationActive && warnWhenInactive)
    }

    /** Validation counts as active when both a Validator and a
        MethodValidationPostProcessor bean exist. */
    constructor (hasValidator: bool, hasMethodValidation: bool, warnWhenInactive: bool)
      ensures Valid()
      ensures validationActive == (hasValidator && hasMethodValidation)
      ensures this.warnWhenInactive == warnWhenInactive
      ensures !warnedOnce && warnings == 0
    {
      validationActive := hasValidator && hasMethodValidation;
      this.warnWhenInactive := warnWhenInactive;
      warnedOnce := false;
      warnings := 0;
    }

    /** The warning guard: `compareAndSet(false, true)` runs only when
        validation is inactive and warnings are wanted, and succeeds once. */
    method WarnIfInactive() returns (warned: bool)
      requires Valid()
      modifies this`warnedOnce, this`warnings
      ensures Valid() && warnings <= 1
      ensures warned == (!validationActive && warnWhenInactive && !old(warnedOnce))
      ensures warnedOnce == (old(warnedOnce) || (!validationActive && warnWhenInactive))
      ensures warnings == old(warnings) + (if warned then 1 else 0)
    {
      warned := false;
      if !validationActive && warnWhenInactive {
        if !warnedOnce {
          warnedOnce := true;
          warnings := warnings + 1;
          warned := true;
        }
      }
    }

    /** `beforeBodyWrite`. `stringConverter` says whether the selected
        converter is a StringHttpMessageConverter. */
    method BeforeBodyWrite(body: Body, onMethod: Option<ResponseHandler>, onClass: Option<ResponseHandler>,
                           stringConverter: bool, response: ServerHttpResponse, now: int)
      returns (out: Written, warned: bool)
      requires Valid()
      modifies this`warnedOnce, this`warnings, response
      ensures Valid() && warnings <= 1
      ensures warned == (!validationActive && warnWhenInactive && !old(warnedOnce))
      ensures warnedOnce == (old(warnedOnce) || (!validationActive && warnWhenInactive))
      // ProblemDetail and ResponseEntity: returned as they are, response untouched.
      ensures (body.ProblemDetail? || body.ResponseEntity?) ==>
                out == Unchanged(body) && unchanged(response)
      // An envelope: never re-wrapped, its normalised status applied.
      ensures body.Wrapped? ==>
                var after := StatusAfter(response.isServlet, old(response.status), NormalizeStatus(body.envelope.status));
                if after.None? then out == Threw && unchanged(response)
                else out == MaybeToJson(stringConverter, body.envelope)
                     && response.status == after.value
                     && response.contentType == JsonIfAbsent(old(response.contentType))
      // Anything else: a fresh envelope around the body.
      ensures body.Plain? ==>
                var cfg := ResolveConfig(onMethod, onClass);
                var e := Envelope(Some(now), cfg.status, cfg.result, body.value, None, None);
                var after := StatusAfter(response.isServlet, old(response.status), cfg.status);
                if after.None? then out == Threw && unchanged(response)
                else response.status == after.value
                     && response.contentType == JsonIfAbsent(old(response.contentType))
                     && (if stringConverter then out == Json(e)
                         else out.Object? && fresh(out.envelope) && out.envelope.View() == e)
    {
      warned := WarnIfInactive();

      if body.ProblemDetail? || body.ResponseEntity? {
        return Unchanged(body), warned;
      }
      if body.Wrapped? {
        var alreadyWrapped := body.envelope;
        var status := NormalizeStatus(alreadyWrapped.status);
        var threw := SetStatusIfNotExplicit(response, status);
        if threw {
          return Threw, warned;
        }
        SetJsonContentTypeIfAbsent(response);
        return MaybeToJson(stringConverter, alreadyWrapped), warned;
      }

      var ann := FindResponseHandler(onMethod, onClass);
      var status := if ann.Some? then ann.value.status else OK;
      var ok := ann.None? || ann.value.result;
      var envelope := new ApiResponse();
      envelope.SetTimestamp(Some(now));
      envelope.SetStatus(status);
      envelope.SetResult(ok);
      envelope.SetData(body.value);

      var threw := SetStatusIfNotExplicit(response, status);
      if threw {
        return Threw, warned;
      }
      SetJsonContentTypeIfAbsent(response);
      out := MaybeToJson(stringConverter, envelope);
    }
  }

  /** Any two writes through one advice, whatever their bodies, annotations
      and converters: the second never warns. */
  method WarnsAtMostOnce(advice: Advice, response: ServerHttpResponse, now: int,
                         first: Body, onMethod1: Option<ResponseHandler>, onClass1: Option<ResponseHandler>, string1: bool,
                         second: Body, onMethod2: Option<ResponseHandler>, onClass2: Option<ResponseHandler>, string2: bool)
    returns (warnedFirst: bool, warnedSecond: bool)
    requires advice.Valid()
    modifies advice`warnedOnce, advice`warnings, response
    ensures !warnedSecond
    ensures warnedFirst ==> !old(advice.warnedOnce)
    ensures advice.Valid() && advice.warnings <= 1
  {
    var out1, out2;
    out1, warnedFirst := advice.BeforeBodyWrite(first, onMethod1, onClass1, string1, response, now);
    out2, warnedSecond := advice.BeforeBodyWrite(second, onMethod2, onClass2, string2, response, now);
  }
}
