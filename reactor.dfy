/**
 * Reactor publishers as finished data: a Mono has completed empty, with one
 * value, or with an error; a Flux is the items it emitted followed by its
 * terminal signal. Only the operators the core composes are given.
 */
module Reactor {
  import opened Exceptions

  datatype Mono<T> = Empty | Just(value: T) | Error(error: Throwable)

  datatype Terminal = Complete | Failed(error: Throwable)

  datatype Flux<T> = Flux(items: seq<T>, terminal: Terminal)

  /** `mono.map(f)`. */
  function Map<T, U>(m: Mono<T>, f: T -> U): Mono<U> {
    match m
    case Empty => Empty
    case Just(v) => Just(f(v))
    case Error(e) => Error(e)
  }

  /** `mono.onErrorResume(e -> Mono.just(f(e)))`. */
  function OnErrorReturn<T>(m: Mono<T>, f: Throwable -> T): Mono<T> {
    match m
    case Error(e) => Just(f(e))
    case _ => m
  }

  /** `flux.collectList()`: every item in order once the flux completes, its
      error otherwise. */
  function CollectList<T>(f: Flux<T>): Mono<seq<T>> {
    match f.terminal
    case Complete => Just(f.items)
    case Failed(e) => Error(e)
  }
}
