/**
 * The exceptions the core tests with `instanceof`, as a closed datatype.
 * Spring's hierarchy is kept through predicates: a ServerWebInputException
 * is a ResponseStatusException whose status is always 400, a
 * WebExchangeBindException is a ServerWebInputException, and every
 * ResponseStatusException is an ErrorResponseException.
 */
module Exceptions {
  import opened Wrappers

  /** A `jakarta.validation.ConstraintViolation`: `getPropertyPath().toString()` and `getMessage()`. */
  datatype Violation = Violation(propertyPath: string, message: Option<string>)

  /** A binding `FieldError`: the field name and its default message. */
  datatype FieldError = FieldError(field: string, defaultMessage: Option<string>)

  /** A global (object-level) binding error. */
  datatype ObjectError = ObjectError(defaultMessage: Option<string>)

  /** The offending handler parameter of a ServerWebInputException. */
  datatype MethodParameter = MethodParameter(parameterName: Option<string>)

  datatype Kind =
    | ResponseStatus(code: int, reason: Option<string>)
    | ServerWebInput(reason: Option<string>, parameter: Option<MethodParameter>)
    | WebExchangeBind(reason: Option<string>, parameter: Option<MethodParameter>,
                    fieldErrors: seq<FieldError>, globalErrors: seq<ObjectError>)
    | ErrorResponse(code: int)                 // any other ErrorResponseException
    | ConstraintViolation(violations: seq<Violation>)
    | MethodArgumentNotValid(fieldErrors: seq<FieldError>)
    | IllegalArgument
    | Other

  /** A thrown exception: its category, `getMessage()` and `getClass().getSimpleName()`. */
  datatype Throwable = Throwable(kind: Kind, message: Option<string>, simpleName: string)

  /** `ex instanceof ResponseStatusException`. */
  predicate IsResponseStatusException(ex: Throwable) {
    ex.kind.ResponseStatus? || ex.kind.ServerWebInput? || ex.kind.WebExchangeBind?
  }

  /** `ex instanceof ServerWebInputException`. */
  predicate IsServerWebInputException(ex: Throwable) {
    ex.kind.ServerWebInput? || ex.kind.WebExchangeBind?
  }

  /** `ex instanceof ErrorResponseException`. */
  predicate IsErrorResponseException(ex: Throwable) {
    IsResponseStatusException(ex) || ex.kind.ErrorResponse?
  }

  /** `getStatusCode().value()` of an ErrorResponseException. */
  function StatusCodeOf(ex: Throwable): int
    requires IsErrorResponseException(ex)
  {
    match ex.kind
    case ResponseStatus(code, _) => code
    case ErrorResponse(code) => code
    case _ => 400
  }

  /** `getReason()` of a ResponseStatusException. */
  function ReasonOf(ex: Throwable): Option<string>
    requires IsResponseStatusException(ex)
  {
    ex.kind.reason
  }
}
