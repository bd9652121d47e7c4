/**
 * The WebFlux result handler of the `com` package: it wraps every handler
 * result in an `ApiResponse` according to `@ResponseHandler`, turns a Mono
 * or a Flux into (at most) one envelope, classifies errors, and sets the
 * exchange's status to the envelope's status before writing it.
 */
module ComResultHandler {
  import opened Wrappers
  import opened Payloads
  import opened Exceptions
  import opened Reactor
  import opened Http
  import opened Annotations
  import opened JavaStrings
  import opened LinkedMaps
  import opened ComApi

  /** The declared return type: is it a publisher, and is its first type
      argument one too (as in `Mono<Flux<T>>`)? */
  datatype ReturnType = ReturnType(rawIsPublisher: bool, innerIsPublisher: bool)

  /** `supports`: a `@ResponseHandler` on the method or on its declaring class. */
  function Supports(onMethod: Option<ResponseHandler>, onClass: Option<ResponseHandler>, rt: ReturnType): bool {
    FindResponseHandler(onMethod, onClass).Some?
  }

  /** When `supports` logs the nested-publisher error. */
  predicate LogsNestedPublisher(onMethod: Option<ResponseHandler>, onClass: Option<ResponseHandler>, rt: ReturnType) {
    FindResponseHandler(onMethod, onClass).Some? && rt.rawIsPublisher && rt.innerIsPublisher
  }

  /** The handler takes exactly the annotated methods, whatever their return
      type; a nested publisher is reported and still accepted. */
  lemma SupportsOnlyByAnnotation(onMethod: Option<ResponseHandler>, onClass: Option<ResponseHandler>, rt: ReturnType, rt': ReturnType)
    ensures Supports(onMethod, onClass, rt) <==> onMethod.Some? || onClass.Some?
    ensures Supports(onMethod, onClass, rt) == Supports(onMethod, onClass, rt')
    ensures LogsNestedPublisher(onMethod, onClass, rt) ==> Supports(onMethod, onClass, rt)
  {
  }

  /** `getReturnValue()`: null, a Mono, a Flux, or any other object. */
  datatype ReturnValue = Null | MonoOf(mono: Mono<Payload>) | FluxOf(flux: Flux<Payload>) | Value(value: Payload)

  /* -------- envelopes -------- */

  /** The envelope `okEnvelope(status, result, data)` fills at instant `now`. */
  function OkView(status: int, result: bool, data: Option<Payload>, now: int): Envelope {
    Envelope(Some(now), status, result, data, None, None)
  }

  method OkEnvelope(status: int, result: bool, data: Option<Payload>, now: int) returns (r: ApiResponse)
    ensures fresh(r) && r.View() == OkView(status, result, data, now)
  {
    r := new ApiResponse();
    r.SetTimestamp(Some(now));
    r.SetStatus(status);
    r.SetResult(result);
    r.SetData(data);
  }

  /* -------- mapping -------- */

  function StatusFromException(ex: Throwable): int {
    if IsResponseStatusException(ex) then StatusCodeOf(ex)
    else if ex.kind.ConstraintViolation? then BAD_REQUEST
    else INTERNAL_SERVER_ERROR
  }

  /** The message `errorEnvelope` picks. */
  function ErrorMessage(ex: Throwable): string {
    if StatusFromException(ex) == 400 then "Validation error"
    else if IsResponseStatusException(ex) then "Request failed"
    else "Unexpected error"
  }

  /** `lastSegment`: the text after the last '.', without `[...]` groups. */
  function LastSegment(path: string): string {
    var dot := LastIndexOf(path, '.');
    StripBracketGroups(if dot >= 0 then path[dot + 1..] else path)
  }

  /** The text after the last '.' (the whole path without one): it holds no '.'. */
  lemma AfterLastDot(path: string) returns (s: string)
    ensures LastSegment(path) == StripBracketGroups(s)
    ensures '.' !in s && multiset(s) <= multiset(path)
    ensures '.' !in path ==> s == path
  {
    var dot := LastIndexOf(path, '.');
    s := if dot >= 0 then path[dot + 1..] else path;
    if dot >= 0 {
      assert path == path[..dot + 1] + s;
      assert multiset(path) == multiset(path[..dot + 1]) + multiset(s);
    }
  }

  /** A last segment holds no '.' and no bracket group, and a plain name is
      its own last segment. */
  lemma LastSegmentShape(path: string)
    ensures '.' !in LastSegment(path) && GroupFree(LastSegment(path))
    ensures '.' !in path && '[' !in path ==> LastSegment(path) == path
  {
    var s := AfterLastDot(path);
    StripIsGroupFree(s);
    StripDeletesOnly(s);
    assert '.' !in multiset(s);
    assert '.' !in multiset(LastSegment(path));
    if '.' !in path && '[' !in path {
      NoOpenIsGroupFree(path);
    }
  }

  /** A last segment only uses characters of the path. */
  lemma LastSegmentDeletesOnly(path: string)
    ensures multiset(LastSegment(path)) <= multiset(path)
  {
    var s := AfterLastDot(path);
    StripDeletesOnly(s);
  }

  /** The last dotted segment is kept, its index groups removed. */
  lemma LastSegmentOfIndexedPath()
    ensures LastSegment("order.items[2].qty") == "qty"
  {
    var p := "order.items[2].qty";
    assert p[14] == '.' && p[15..] == "qty";
    LastIndexOfAt(p, '.', 14);
    NoOpenIsGroupFree("qty");
  }

  /** A dot-free name followed by one index group has no '.', and stripping
      leaves the name. */
  lemma StripIndexedName(name: string, idx: string)
    requires '.' !in name && '[' !in name
    requires forall j | 0 <= j < |idx| :: idx[j] != ']' && idx[j] != '.' && !IsLineTerminator(idx[j])
    ensures '.' !in name + ("[" + idx + "]")
    ensures StripBracketGroups(name + ("[" + idx + "]")) == name
  {
    var g := "[" + idx + "]";
    assert forall j | 1 <= j < |g| - 1 :: g[j] == idx[j - 1];
    assert '.' !in g;
    assert '.' !in multiset(name + g) by {
      assert multiset(name + g) == multiset(name) + multiset(g);
    }
    StripPlainPrefix(name, g);
    assert g + [] == g;
    StripLeadingGroup(g, []);
  }

  /** A name followed by one index group loses the group, with or without
      a dotted prefix. */
  lemma LastSegmentOfIndexed(p: string, name: string, idx: string)
    requires '.' !in name && '[' !in name
    requires forall j | 0 <= j < |idx| :: idx[j] != ']' && idx[j] != '.' && !IsLineTerminator(idx[j])
    ensures LastSegment(p + "." + (name + ("[" + idx + "]"))) == name
    ensures LastSegment(name + ("[" + idx + "]")) == name
  {
    StripIndexedName(name, idx);
    LastSegmentOfSplit(p, name + ("[" + idx + "]"));
  }

  /** Without a dot, the whole path loses its index groups. */
  lemma LastSegmentOfIndexedName()
    ensures LastSegment("items[2]") == "items"
  {
    assert "items[2]" == "items" + ("[" + "2" + "]");
    LastSegmentOfIndexed([], "items", "2");
  }

  /** The last segment is the text after the path's last '.', stripped of
      its bracket groups; a path without '.' is stripped whole. */
  lemma LastSegmentOfSplit(p: string, t: string)
    requires '.' !in t
    ensures LastSegment(p + "." + t) == StripBracketGroups(t)
    ensures LastSegment(t) == StripBracketGroups(t)
  {
    var path := p + "." + t;
    assert path[|p|] == '.' && path[|p| + 1..] == t;
    LastIndexOfAt(path, '.', |p|);
  }

  /** The key a violation is filed under. */
  function ViolationKey(v: Violation): Option<string> {
    var field := LastSegment(v.propertyPath);
    Some(if !IsBlank(field) then field else "_violation")
  }

  /** One `put` per violation, in iteration order. */
  function ViolationEntries(vs: seq<Violation>): seq<(Option<string>, Option<string>)> {
    seq(|vs|, i requires 0 <= i < |vs| => (ViolationKey(vs[i]), Some(vs[i].message.GetOr("invalid"))))
  }

  /** The map `errorsFromException` returns; None is Java's null. */
  function ErrorsOf(ex: Throwable): Option<ErrorMap> {
    if IsResponseStatusException(ex) then
      Some(if ReasonOf(ex).Some? then [(Some("_reason"), ReasonOf(ex))] else [])
    else if ex.kind.ConstraintViolation? then
      Some(PutAll(ViolationEntries(ex.kind.violations)))
    else None
  }

  /** The loop over the violations, overwriting on a repeated key. */
  method ViolationErrors(vs: seq<Violation>) returns (errors: ErrorMap)
    ensures errors == PutAll(ViolationEntries(vs))
  {
    var es := ViolationEntries(vs);
    errors := [];
    var i := 0;
    while i < |vs|
      invariant 0 <= i <= |vs|
      invariant errors == PutAll(es[..i])
    {
      var v := vs[i];
      var field := LastSegment(v.propertyPath);
      var key := if !IsBlank(field) then field else "_violation";
      var msg := if v.message.Some? then v.message.value else "invalid";
      assert es[..i + 1][..i] == es[..i];
      errors := Put(errors, Some(key), Some(msg));
      i := i + 1;
    }
    assert es[..|vs|] == es;
  }

  method ErrorsFromException(ex: Throwable) returns (errors: Option<ErrorMap>)
    ensures errors == ErrorsOf(ex)
  {
    if IsResponseStatusException(ex) {
      var map0: ErrorMap := [];
      if ReasonOf(ex).Some? {
        map0 := Put(map0, Some("_reason"), ReasonOf(ex));
        assert map0 == [(Some("_reason"), ReasonOf(ex))];
      }
      return Some(map0);
    }
    if ex.kind.ConstraintViolation? {
      var map0 := ViolationErrors(ex.kind.violations);
      return Some(map0);
    }
    return None;
  }

  /** The envelope `errorEnvelope(ex)` fills: the map only when non-empty. */
  function ErrorView(ex: Throwable, now: int): (e: Envelope)
    ensures !e.result && e.data.None? && e.message.Some?
    ensures e.errors.Some? ==> e.errors.value != [] && e.errors == ErrorsOf(ex)
  {
    var errs := ErrorsOf(ex);
    Envelope(Some(now), StatusFromException(ex), false, None,
             if errs.Some? && errs.value != [] then errs else None,
             Some(ErrorMessage(ex)))
  }

  method ErrorEnvelope(ex: Throwable, now: int) returns (r: ApiResponse)
    ensures fresh(r) && r.View() == ErrorView(ex, now)
  {
    var status := StatusFromException(ex);
    var message := if status == 400 then "Validation error"
                   else if IsResponseStatusException(ex) then "Request failed" else "Unexpected error";
    var errors := ErrorsFromException(ex);
    r := new ApiResponse();
    r.SetTimestamp(Some(now));
    r.SetStatus(status);
    r.SetResult(false);
    r.SetMessage(Some(message));
    if errors != None && errors.value != [] {
      r.SetErrors(errors);
    }
    r.SetData(None);
  }

  /** Status, message and map by category: a ResponseStatusException keeps
      its code and says "Validation error" exactly when that code is 400; a
      constraint violation set is 400; anything else is 500 with no map. */
  lemma ErrorClassification(ex: Throwable, now: int)
    ensures ErrorMessage(ex) == "Validation error" <==> StatusFromException(ex) == 400
    ensures IsResponseStatusException(ex) ==>
              StatusFromException(ex) == StatusCodeOf(ex)
              && (StatusCodeOf(ex) != 400 ==> ErrorMessage(ex) == "Request failed")
              && (ErrorView(ex, now).errors.Some? <==> ReasonOf(ex).Some?)
    ensures ex.kind.ConstraintViolation? ==> StatusFromException(ex) == 400
    ensures !IsResponseStatusException(ex) && !ex.kind.ConstraintViolation? ==>
              StatusFromException(ex) == 500 && ErrorMessage(ex) == "Unexpected error"
              && ErrorView(ex, now).errors.None?
  {
  }

  /** A repeated key keeps the message of the last violation filed under it. */
  lemma ViolationErrorsLastWins(vs: seq<Violation>, i: nat)
    requires i < |vs|
    requires forall j | i < j < |vs| :: ViolationKey(vs[j]) != ViolationKey(vs[i])
    ensures Lookup(PutAll(ViolationEntries(vs)), ViolationKey(vs[i])) == Some(Some(vs[i].message.GetOr("invalid")))
  {
    var es := ViolationEntries(vs);
    PutAllLastWins(es, i);
  }

  /** A violation's key is non-blank and holds no '.' and no bracket group. */
  lemma ViolationKeyWellFormed(v: Violation)
    ensures ViolationKey(v).Some?
    ensures var k := ViolationKey(v).value; !IsBlank(k) && '.' !in k && GroupFree(k)
  {
    var field := LastSegment(v.propertyPath);
    LastSegmentShape(v.propertyPath);
    if IsBlank(field) {
      var u := "_violation";
      assert !IsWhitespace(u[0]);
      assert '.' !in u && '[' !in u;
      NoOpenIsGroupFree(u);
    }
  }

  /** Every key of the violation map is non-null, non-blank and free of '.'
      and of bracket groups; and every violation has its key in the map. */
  lemma ViolationKeysWellFormed(vs: seq<Violation>, k: Option<string>)
    ensures k in Keys(PutAll(ViolationEntries(vs))) <==> exists i :: 0 <= i < |vs| && ViolationKey(vs[i]) == k
    ensures k in Keys(PutAll(ViolationEntries(vs))) ==>
              k.Some? && !IsBlank(k.value) && '.' !in k.value && GroupFree(k.value)
  {
    var es := ViolationEntries(vs);
    FoldsKeySet(es, k);
    if exists i :: 0 <= i < |vs| && ViolationKey(vs[i]) == k {
      var i :| 0 <= i < |vs| && ViolationKey(vs[i]) == k;
      assert es[i].0 == k;
    }
    if k in Keys(PutAll(es)) {
      var i :| 0 <= i < |es| && es[i].0 == k;
      ViolationKeyWellFormed(vs[i]);
    }
  }

  /* -------- handleResult -------- */

  /** The envelope a Mono of envelopes hands to `flatMap`, if any. */
  function Emitted(m: Mono<Envelope>): Option<Envelope> {
    if m.Just? then Some(m.value) else None
  }

  /** The envelope `handleResult` writes for a return value, before the
      status check; None when nothing reaches `flatMap`. */
  function ResultEnvelope(cfg: ResponseHandler, body: ReturnValue, now: int): (r: Option<Envelope>)
    ensures r.None? <==> body == MonoOf(Empty)
  {
    match body
    case Null => Some(OkView(cfg.status, cfg.result, None, now))
    case MonoOf(m) =>
      Emitted(OnErrorReturn(Map(m, d => OkView(cfg.status, cfg.result, Some(d), now)), e => ErrorView(e, now)))
    case FluxOf(f) =>
      Emitted(OnErrorReturn(Map(CollectList(f), l => OkView(cfg.status, cfg.result, Some(Items(l)), now)), e => ErrorView(e, now)))
    case Value(v) => Some(OkView(cfg.status, cfg.result, Some(v), now))
  }

  /** `handleResult`. `known` holds the codes `HttpStatus.valueOf` accepts:
      for any other status it throws, so nothing is written and the
      response keeps its status. */
  method HandleResult(response: ReactiveResponse, onMethod: Option<ResponseHandler>, onClass: Option<ResponseHandler>,
                      body: ReturnValue, now: int, known: set<int>) returns (written: Option<ApiResponse>)
    modifies response
    ensures var e := ResultEnvelope(ResolveConfig(onMethod, onClass), body, now);
            if e.Some? && e.value.status in known then
              written.Some? && fresh(written.value) && written.value.View() == e.value
              && response.statusCode == Some(e.value.status)
            else
              written.None? && response.statusCode == old(response.statusCode)
  {
    var ann := FindResponseHandler(onMethod, onClass);
    var okStatus := if ann.Some? then ann.value.status else 200;
    var ok := ann.None? || ann.value.result;
    var env: ApiResponse;
    match body {
      case Null =>
        env := OkEnvelope(okStatus, ok, None, now);
      case MonoOf(m) =>
        match m {
          case Empty => return None;
          case Just(d) => env := OkEnvelope(okStatus, ok, Some(d), now);
          case Error(ex) => env := ErrorEnvelope(ex, now);
        }
      case FluxOf(f) =>
        match f.terminal {
          case Complete => env := OkEnvelope(okStatus, ok, Some(Items(f.items)), now);
          case Failed(ex) => env := ErrorEnvelope(ex, now);
        }
      case Value(v) =>
        env := OkEnvelope(okStatus, ok, Some(v), now);
    }
    if env.status in known {
      response.SetStatusCode(env.status);
      written := Some(env);
    } else {
      written := None;
    }
  }

  /** A null or plain value is wrapped at once: the resolved status and flag,
      the value as data, and no errors or message. */
  lemma ImmediateBodies(cfg: ResponseHandler, v: Payload, now: int)
    ensures ResultEnvelope(cfg, Null, now) == Some(Envelope(Some(now), cfg.status, cfg.result, None, None, None))
    ensures ResultEnvelope(cfg, Value(v), now) == Some(Envelope(Some(now), cfg.status, cfg.result, Some(v), None, None))
  {
  }

  /** A Mono's value is wrapped as a success, its error becomes the error
      envelope, and an empty Mono yields nothing. */
  lemma MonoBodies(cfg: ResponseHandler, m: Mono<Payload>, now: int)
    ensures ResultEnvelope(cfg, MonoOf(m), now) ==
              match m
              case Empty => None
              case Just(d) => Some(Envelope(Some(now), cfg.status, cfg.result, Some(d), None, None))
              case Error(ex) => Some(ErrorView(ex, now))
  {
  }

  /** A completed Flux yields one success envelope holding every item in
      order; a failed one yields the error envelope and none of its items. */
  lemma FluxAllOrNothing(cfg: ResponseHandler, f: Flux<Payload>, now: int)
    ensures ResultEnvelope(cfg, FluxOf(f), now).Some?
    ensures f.terminal.Complete? ==>
              ResultEnvelope(cfg, FluxOf(f), now).value == OkView(cfg.status, cfg.result, Some(Items(f.items)), now)
    ensures f.terminal.Failed? ==>
              ResultEnvelope(cfg, FluxOf(f), now).value == ErrorView(f.terminal.error, now)
              && ResultEnvelope(cfg, FluxOf(f), now).value.data.None?
  {
  }

  /** Errors and messages appear only on failure envelopes: an envelope that
      carries either has result false and no data; a success carries the
      resolved status and flag. */
  lemma ErrorFieldsOnlyOnFailure(cfg: ResponseHandler, body: ReturnValue, now: int)
    requires ResultEnvelope(cfg, body, now).Some?
    ensures var e := ResultEnvelope(cfg, body, now).value;
            (e.errors.Some? || e.message.Some?) ==> !e.result && e.data.None?
    ensures var e := ResultEnvelope(cfg, body, now).value;
            e.message.None? ==> e.status == cfg.status && e.result == cfg.result && e.errors.None?
  {
  }
}
