/**
 * The older WebFlux result handler of the `org` package. It builds the
 * envelope (or a Mono of it) and hands it to the writer without touching
 * the response; every error becomes a 500 envelope carrying the
 * exception's own message.
 */
module OrgResultHandler {
  import opened Wrappers
  import opened Payloads
  import opened Exceptions
  import opened Reactor
  import opened Annotations
  import opened OrgApi

  /** `supports`: a `@ResponseHandler` on the method or its containing class. */
  function Supports(onMethod: Option<ResponseHandler>, onClass: Option<ResponseHandler>): bool {
    FindResponseHandler(onMethod, onClass).Some?
  }

  /** The handler claims a method exactly when it is annotated, and the
      annotation it then applies is the method's if there is one. */
  lemma SupportsIffAnnotated(onMethod: Option<ResponseHandler>, onClass: Option<ResponseHandler>)
    ensures Supports(onMethod, onClass) <==> onMethod.Some? || onClass.Some?
    ensures Supports(onMethod, onClass) ==>
              ResolveConfig(onMethod, onClass) == (if onMethod.Some? then onMethod.value else onClass.value)
  {
  }

  datatype ReturnValue = Null | MonoOf(mono: Mono<Payload>) | FluxOf(flux: Flux<Payload>) | Value(value: Payload)

  /** What reaches the writer: an envelope now, or a Mono of one. */
  datatype Written = Now(envelope: Envelope) | Later(pending: Mono<Envelope>)

  /** `okEnvelope(status, result, data)`, filled by setters. */
  function OkEnvelope(status: int, result: bool, data: Option<Payload>, now: int): Envelope {
    Envelope(Some(now), status, result, data, None)
  }

  /** `errorEnvelope(ex)`: always 500, whatever the exception. */
  function ErrorEnvelope(ex: Throwable, now: int): (e: Envelope)
    ensures e.status == 500 && !e.result && e.data.None? && e.message == ex.message
  {
    Envelope(Some(now), 500, false, None, ex.message)
  }

  /** `handleResult`. */
  function HandleResult(onMethod: Option<ResponseHandler>, onClass: Option<ResponseHandler>,
                        body: ReturnValue, now: int): (w: Written)
    ensures w.Later? <==> body.MonoOf? || body.FluxOf?
    ensures w.Later? ==> !w.pending.Error?
  {
    var cfg := ResolveConfig(onMethod, onClass);
    match body
    case Null => Now(OkEnvelope(cfg.status, cfg.result, None, now))
    case MonoOf(m) =>
      Later(OnErrorReturn(Map(m, d => OkEnvelope(cfg.status, cfg.result, Some(d), now)), e => ErrorEnvelope(e, now)))
    case FluxOf(f) =>
      Later(OnErrorReturn(Map(CollectList(f), l => OkEnvelope(cfg.status, cfg.result, Some(Items(l)), now)), e => ErrorEnvelope(e, now)))
    case Value(v) => Now(OkEnvelope(cfg.status, cfg.result, Some(v), now))
  }

  /** A null or plain body is wrapped at once with the resolved status and
      flag; null becomes null data. */
  lemma ImmediateBodies(onMethod: Option<ResponseHandler>, onClass: Option<ResponseHandler>, v: Payload, now: int)
    ensures var cfg := ResolveConfig(onMethod, onClass);
            HandleResult(onMethod, onClass, Null, now) == Now(Envelope(Some(now), cfg.status, cfg.result, None, None))
            && HandleResult(onMethod, onClass, Value(v), now) == Now(Envelope(Some(now), cfg.status, cfg.result, Some(v), None))
  {
  }

  /** A Mono's value is wrapped as a success and its error becomes the 500
      envelope; an empty Mono stays empty. */
  lemma MonoBodies(onMethod: Option<ResponseHandler>, onClass: Option<ResponseHandler>, m: Mono<Payload>, now: int)
    ensures var cfg := ResolveConfig(onMethod, onClass);
            HandleResult(onMethod, onClass, MonoOf(m), now) ==
              Later(match m
                    case Empty => Empty
                    case Just(d) => Just(Envelope(Some(now), cfg.status, cfg.result, Some(d), None))
                    case Error(ex) => Just(Envelope(Some(now), 500, false, None, ex.message)))
  {
  }

  /** A Flux always yields exactly one envelope: all its items in order when
      it completes, the 500 envelope with no data when it fails. */
  lemma FluxAllOrNothing(onMethod: Option<ResponseHandler>, onClass: Option<ResponseHandler>, f: Flux<Payload>, now: int)
    ensures var cfg := ResolveConfig(onMethod, onClass);
            HandleResult(onMethod, onClass, FluxOf(f), now) ==
              Later(Just(if f.terminal.Complete?
                         then Envelope(Some(now), cfg.status, cfg.result, Some(Items(f.items)), None)
                         else Envelope(Some(now), 500, false, None, f.terminal.error.message)))
  {
  }
}
