/** `@ResponseHandler(status, result)` and how the handlers look it up:
    the method's annotation first, then its class's. */
module Annotations {
  import opened Wrappers

  datatype ResponseHandler = ResponseHandler(status: int, result: bool)

  /** The annotation's element defaults. */
  const Default: ResponseHandler := ResponseHandler(200, true)

  function FindResponseHandler(onMethod: Option<ResponseHandler>, onClass: Option<ResponseHandler>): Option<ResponseHandler> {
    if onMethod.Some? then onMethod else onClass
  }

  /** The `(status, result)` a handler applies: the annotation found, or 200
      and true without one. */
  function ResolveConfig(onMethod: Option<ResponseHandler>, onClass: Option<ResponseHandler>): ResponseHandler {
    var ann := FindResponseHandler(onMethod, onClass);
    ResponseHandler(if ann.Some? then ann.value.status else 200, ann.None? || ann.value.result)
  }

  /** Method level beats class level; class level applies only without a
      method annotation; with neither the pair is (200, true). */
  lemma ConfigPrecedence(onMethod: Option<ResponseHandler>, onClass: Option<ResponseHandler>)
    ensures onMethod.Some? ==> ResolveConfig(onMethod, onClass) == onMethod.value
    ensures onMethod.None? && onClass.Some? ==> ResolveConfig(onMethod, onClass) == onClass.value
    ensures onMethod.None? && onClass.None? ==> ResolveConfig(onMethod, onClass) == ResponseHandler(200, true)
    ensures FindResponseHandler(onMethod, onClass).None? <==> onMethod.None? && onClass.None?
  {
  }

  /** An annotation left at its defaults resolves like no annotation at all. */
  lemma DefaultsMatchAbsence(onClass: Option<ResponseHandler>)
    ensures ResolveConfig(Some(Default), onClass) == ResolveConfig(None, None)
  {
  }
}
